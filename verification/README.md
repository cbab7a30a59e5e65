# ARGUS: a verified model

ARGUS is an endpoint detection and response system: sensors feed an agent, the agent
detects and responds, a control plane correlates, hunts and commands. This project models
its decision-making cores in Dafny and proves what each of them promises, for every input
or every run. `dafny verify dfyconfig.toml` checks all of it.

Code that updates state is modelled by classes, arrays and loops, each proved against a
function on values; the theorems are about those functions. Time is an integer number of
nanoseconds, a float64 is a real, an int64 or a uint wraps where the code lets it wrap.
Library calls whose code is elsewhere (regular expressions, ParseFloat, SHA-256, HMAC,
time formatting, character classes, the random source, CIDR and IP parsing, the outcome of
a kernel or firewall call) are parameters, and each proof names the laws it uses of them.

The parts:

- **Hunting** (`Arql`, `ArqlLexer`, `ArqlParser`, `ArqlPrinter`, `ArqlText`, `ArqlCompile`,
  `HuntSequence`, `HuntGroups`): the query language from text to tree and back, and the greedy
  sequence matcher, which loses no start event although it compacts its list while reading it.
- **Promotion and detection** (`Detect`, `HuntRule`, `Model`, `EventFields`): a hunt turned into a
  detection rule is evaluated by another engine; where the two agree, exactly.
- **Sigma** (`SigmaGlob`, `SigmaCondition`, `SigmaMeaning`): wildcard strings and condition
  expressions against their plain meaning.
- **Correlation** (`CrossHost`, `CrossHostExact`, `ProcessCorrelator`,
  `ProcessCorrelatorExact`): pruning and sweeping are invisible, and so is the cap until an
  alert finds it full of live keys.
- **Fleet** (`FleetStore`, `FleetRuns`, `Responder`, `ResponderRuns`): certificate rotation,
  command queues and the posture ceiling over whole interleavings.
- **Playbooks** (`Playbooks`, `Soar`, `SoarRuns`, `SoarReview`, `CommandRuns`): what the engine does while
  its switch and its playbooks change under alerts in flight, and every command from the
  alert that caused it, through the control plane's queue, to what the host does.
- **Smaller cores** (`IsolationForest`, `ArgvPack`, `DnsName`, `EventBus`, `EventBusRuns`,
  `AuditChain`, `AttackGraph`, `AttackGraphExact`, `AttackGraphOrder`, `EventLake`,
  `EventLakeStore`).
- **Shared** (`Text`, `Stdlib`, `Sorting`).

Where a promise turned out to hold only on part of its inputs, the exact part is proved:

- A comparison of a hunt means the same as a rule exactly under `HuntRule.Promotable`: the
  hunt's `!=` is false on an absent field and the rule's is true, the rule engine truncates
  fractional literals, and it reads `"1"` as a boolean. A hunt without class or filter
  becomes a rule that also asks for an action.
- A Sigma wildcard string accepts its glob on every text exactly when it needs no regular
  expression, since the expression's dot stops at a newline (`SigmaGlob.AgreesExactlyWithoutRegex`).
- The first alert that the cross-host correlator refuses is the first that comes while as
  many other keys as the cap are live (`CrossHostExact.RefusedExactly`).
  Alerts whose keys were never refused signal as specified, on every run, if and only if
  the window is not negative or at least two hosts are asked for
  (`CrossHostExact.MeetsSpecificationExactly`).
- The comment in `cmd/argus-server/audit.go` says the separator cannot occur in an entry's
  text, which nothing enforces; an entry is identified by its canonical form exactly when
  it does not (`AuditChain.CanonicalIdentifies`). Two server instances writing one file
  never leave a chain that verifies (`AuditChain.RestartBreaksChain`), and a truncated file
  does verify (`AuditChain.TruncationVerifies`). A final hash commits to a log, short
  of a hash collision, exactly when no text in it holds the separator
  (`AuditChain.CommittedExactly`).
- The in-memory event lake and its SQL twin select the same events exactly when the
  searched-for text holds no `%` or `_`, the time range is empty, or the host asked for
  already contains the text (`EventLake.FiltersAgreeExactly`). They also list equal
  timestamps in opposite orders when the newest come first. After a history they show the
  same events exactly when none that SQL alone selects is shown and, newest first, the
  matching events of each time read the same from both ends of their append order as far as
  the limit reaches (`EventLakeStore.BackendsAgree`). For which queries they always do is
  `EventLakeStore.AlwaysAgreesExactly`.
- The attack graph's comment promises output that does not depend on the order of events.
  Edges, nodes, kinds, techniques and severity ranks do not
  (`AttackGraphExact.OrderIndependent`). The whole graph does not exactly when the events
  that name a process agree on its first informative label, its command lines are all the
  same, and its highest severities are spelled alike
  (`AttackGraphOrder.OrderFreeExactly`).
- The playbook store's comment says a new playbook can never act before it is reviewed. A
  draft keeps that promise in every run exactly when it is refused, does not ask for enforce,
  or has no step that acts (`SoarReview.SafeExactly`); every other draft has a run in which it
  acts without an update (`SoarReview.NewPlaybookActs`). Switching the engine off does not
  stop an observation that has begun: what counts is the switch when the alert arrived and
  the playbooks when they were listed (`SoarRuns.QueuedExactly`), and a command is queued
  after the switch went off in `SoarReview.KillAfterSwitchOff`.
- A stream of alerts is authorised once. Every alert on file goes back to a stream opened
  under a certificate current or staged at that moment (`FleetRuns.FiledWasIdentified`), and
  a stream files on after its certificate was retired
  (`FleetRuns.StreamOutlivesItsCertificate`).
- The agent sees a process's whole argument vector exactly when it has at most 32 arguments,
  all readable and none empty, that fit the buffer with their NULs (`ArgvPack.RoundTrip`).
- A subscription made after the bus is closed stays open and is never sent anything
  (`EventBusRuns.LateSubscriber`).
- A DNS name split at its dots gives its labels back exactly when no label holds a dot
  (`DnsName.NameReadsBackExactly`). Every list with a dot inside a label shares its name with
  another list (`DnsName.InnerDotIsAmbiguous`). A dot-free list is the only one with its name
  exactly when any two neighbours are together too long for one label
  (`DnsName.DotFreeIsNamedExactly`), a lone label exactly when no dot lies inside it
  (`DnsName.LoneLabelIsNamedExactly`), and any list exactly when reading its name from the end
  with the shortest labels and with the longest gives the same (`DnsName.NamedExactly`).

## Model

| member | source | states |
|---|---|---|
| `HuntSequence.MatchSequences` | internal/hunt/hunt.go:193-203 | on every time-ordered group, the chains returned are exactly one per start event from which some in-order, strictly later chain fits the window; each is the earliest at every stage, no start repeats, and they come in order of completion |
| `HuntSequence.AdvancePartials` | internal/hunt/hunt.go:205-227 | overwriting the open list from its own front while reading it gives the partials a pass over a copy would keep, and the chains it would complete |
| `HuntSequence.AppendPartial` | internal/hunt/hunt.go:205-227 | an append over the same array changes only the slot after the list |
| `HuntSequence.GreedyKeepsUp` | internal/hunt/hunt.go:205-227 | taking the first match for each stage never falls behind any chain from the same start, and is not dropped while such a chain is inside the window |
| `HuntSequence.FateIsSound` | internal/hunt/hunt.go:193-227 | after any number of events an open partial is an in-order windowed match of its stages, and a finished one is a chain |
| `HuntSequence.DoneListIsExact` | internal/hunt/hunt.go:193-227 | the chains recorded over a whole group are sound, earliest, complete and without repeats |
| `HuntSequence.OneStep` | internal/hunt/hunt.go:205-227 | one event changes the open list and the completed chains as it changes the fate of every start |
| `HuntGroups.GroupBy` | internal/hunt/hunt.go:165-179 | the groups partition the events that carry the key, each in the order given |
| `HuntGroups.MembersTimeOrdered` | internal/hunt/hunt.go:165-179 | a group of time-ordered events is time-ordered, so the matcher's assumption holds for every group |
| `HuntGroups.RunSequence` | internal/hunt/hunt.go:149-160 | on all time-ordered events the reported sequences are, in the query's own words, choices of events at strictly increasing positions, one per stage and passing it, all with one value of the grouping field if there is one, and each within the window of the first; every event that starts such a choice is reported exactly once, no other choice from it is sooner at any stage, and the sequences of one group come in order of completion |
| `HuntRule.MatchTree` | internal/hunt/torule.go:88-111 | the loop over class, filter and pipes builds the tree the meaning theorems are about |
| `HuntRule.PromotionPreservesMeaning` | internal/hunt/torule.go:88-142 | for every simple query and every event on which its comparisons are typed, the rule tree loads and fires exactly when the class, the filter and all pipe filters hold |
| `HuntRule.PromotableExactly` | internal/hunt/torule.go:129-167 | a comparison's leaf loads and agrees with the hunt on every event if and only if the comparison is promotable |
| `HuntRule.FlattenAndAgrees` | internal/hunt/torule.go:172-178 | flattening an `and` chain into one group keeps its truth value and loads |
| `HuntRule.FlattenOrAgrees` | internal/hunt/torule.go:172-178 | flattening an `or` chain into one group keeps its truth value and loads |
| `HuntRule.ExprAgrees` | internal/hunt/torule.go:113-142 | every typed expression and its condition tree have the same value on the event |
| `HuntRule.AbsentField` | internal/hunt/eval.go:53-83 | on an absent field the two engines differ for `!=` and for no other operator |
| `HuntRule.FractionalBound` | internal/detect/operators.go:193-209 | comparing an integer with a bound and with the bound's integer part differ only for `<` and `>=`, only at a fractional bound and only on that integer part |
| `HuntRule.HuntEqualityIsDenotation` | internal/hunt/eval.go:85-97 | hunt equality with a literal accepts at most one value of each field type, and which one |
| `Arql.EqualityInWords` | internal/hunt/eval.go:85-128 | a hunt's number equals the field's number and a text field's shortest decimal; its text equals the same text, the number it spells, or the truth value it names |
| `HuntRule.RuleEqualityIsDenotation` | internal/detect/operators.go:159-209 | rule equality with a literal accepts at most one value of each field type, and which one |
| `HuntRule.HuntInIsMembership` | internal/hunt/eval.go:53-83 | `in` in a hunt is membership in the set its literals denote |
| `HuntRule.RuleInIsMembership` | internal/detect/operators.go:60-77 | `in` in a rule is membership in the set its literals denote |
| `HuntRule.OrderingAgrees` | internal/hunt/eval.go:99-120 | a typed ordering comparison agrees with the rule's integer comparison on every value of the field |
| `HuntRule.OnlyHuntOrdersStrings` | internal/detect/operators.go:108-133 | a hunt orders text that reads as a number and a rule does not |
| `HuntRule.UntypedWitness` | internal/detect/operators.go:18-133 | for every comparison that loads but is not typed there is a value of the field on which the engines differ |
| `HuntRule.NeverMatchesExactly` | internal/detect/operators.go:79-106 | on a field that is not text, a hunt's text operator never matches if and only if it accepts neither truth value's text, or no decimal of the field's range |
| `HuntRule.NumberPatternsExactly` | internal/hunt/torule.go:157-167 | a pattern written as a number finds the texts the rule's printed pattern finds if and only if both are written alike |
| `HuntRule.StringLiteralsAreTyped` | internal/hunt/torule.go:144-167 | text operators and equality with text literals on text fields are always promotable where present |
| `HuntRule.IntegralLiteralsAreTyped` | internal/hunt/torule.go:144-167 | whole-number literals on integer fields are always promotable where present |
| `HuntRule.FractionalLiteralBreaksEquality` | internal/detect/operators.go:193-209 | a concrete comparison with a fractional literal on which the engines differ |
| `HuntRule.LooseBooleanBreaksEquality` | internal/detect/operators.go:181-191 | a concrete comparison with a loose boolean on which the engines differ |
| `HuntRule.MaskedComparison` | internal/hunt/torule.go:113-142 | a query may be promotable although its comparisons are not |
| `Detect.AllGroupHolds` | internal/detect/condition.go:124-131 | an `all` group holds when every child does, and loads when every child does |
| `Detect.AnyGroupHolds` | internal/detect/condition.go:133-140 | an `any` group holds when some child does, and loads when every child does |
| `Detect.NotHolds` | internal/detect/condition.go:142-144 | a `not` node negates its child and loads when it does |
| `Detect.LeafHolds` | internal/detect/condition.go:50-113 | a leaf passes the exactly-one-kind check, and its value is its operator's test of the field |
| `Detect.NegatedOps` | internal/detect/operators.go:18-77 | `ne` and `not_in` are the negations of `eq` and `in` on every field value, present or not |
| `Detect.InIsSomeEqual` | internal/detect/operators.go:60-77 | `in` a list holds exactly when `eq` holds for one of its values |
| `Detect.AbsentPassesNegations` | internal/detect/operators.go:18-77 | an absent field passes `ne` and `not_in` and no other operator, and `exists` is presence |
| `Detect.CidrTestsText` | internal/detect/operators.go:135-148 | `cidr` holds exactly of a present text whose address is in the network |
| `Detect.OrderingsComplement` | internal/detect/operators.go:108-133 | the orderings of an integer complement each other, and `eq` is `ge` and `le` together |
| `Detect.EqualityInWords` | internal/detect/operators.go:159-209 | which field values equal which rule values: texts as texts, integers as integers, truth values as such, a text read as the integer it spells, and each kind of rule value as the text it prints as |
| `Detect.TruncatesTowardZero` | internal/detect/operators.go:193-209 | a fractional rule value is cut off toward zero |
| `Model.FieldRespectsSchema` | internal/model/fields.go:61-66 | every rule-visible field of every event is absent only if it may be, and otherwise holds a value of its type and range |
| `EventFields.PutThenGet` | internal/model/fields.go:16-66 | on every event, a field that was set to a value of its type reads as that value |
| `EventFields.PutElsewhere` | internal/model/fields.go:16-66 | and every other field reads as before; only the two names of the action are one field |
| `EventFields.ClearThenGet` | internal/model/fields.go:16-66 | a field that was emptied, and that may be absent, is absent |
| `EventFields.ClearElsewhere` | internal/model/fields.go:16-66 | and every other field reads as before |
| `EventFields.AbsentIsClear` | internal/model/fields.go:16-66 | a field that reads as absent may be, and emptying it changes nothing |
| `EventFields.GetThenPut` | internal/model/fields.go:16-66 | setting a field to what it reads as gives back the event, for every field that shows all it is made of |
| `EventFields.ScoreIsRounded` | internal/model/fields.go:55-57 | the anomaly score reads as the whole number nearest to a hundred times it, halves going up |
| `EventFields.MatchesAreListed` | internal/model/fields.go:28-30 | one more YARA match reads as the text before, a comma and its name |
| `EventFields.NamesAreKept` | internal/model/fields.go:16-66 | a rule path that is known names a field whose path is that text |
| `EventFields.SchemaIsRealised` | internal/model/fields.go:61-66 | for every field and every value its type allows, setting the field on an event without any gives an event that shows that value, so a disagreement on it is a real one |
| `EventFields.AbsenceIsRealised` | internal/model/fields.go:61-66 | every field that may be absent is absent in some event |
| `ArqlParser.Parse` | internal/hunt/parse.go:163-178 | on every token list ending in EOF the parser terminates, never reads past the end and returns what the grammar on token lists gives, errors included |
| `ArqlParser.Parser.Take` | internal/hunt/parse.go:163-184 | consuming a token leaves a token under the position unless the one consumed was EOF |
| `ArqlParser.Parser.ParseOr` | internal/hunt/parse.go:313-327 | the loop agrees with the grammar, and moves forward whenever it succeeds |
| `ArqlParser.Parser.ParseAnd` | internal/hunt/parse.go:329-343 | the loop agrees with the grammar, and moves forward whenever it succeeds |
| `ArqlParser.Parser.ParseUnary` | internal/hunt/parse.go:345-367 | `not` and parentheses agree with the grammar |
| `ArqlParser.Parser.ParseComparison` | internal/hunt/parse.go:369-395 | a comparison agrees with the grammar, including the refusal of a bad pattern |
| `ArqlParser.Parser.ParseIn` | internal/hunt/parse.go:397-420 | an `in` list agrees with the grammar |
| `ArqlParser.Parser.ParseOperator` | internal/hunt/parse.go:422-433 | an operator agrees with the grammar |
| `ArqlParser.Parser.ParseField` | internal/hunt/parse.go:435-444 | a field is accepted exactly when it is a known one |
| `ArqlParser.Parser.ParseValue` | internal/hunt/parse.go:446-462 | a value agrees with the grammar although a failing read may consume EOF |
| `ArqlParser.Parser.ParseDuration` | internal/hunt/parse.go:464-478 | a duration agrees with the grammar, with its 64-bit wrap-around |
| `ArqlParser.BareNumberIsSeconds` | internal/hunt/parse.go:469-474 | a window written without a unit is that many seconds |
| `ArqlParser.Parser.ParseSequence` | internal/hunt/parse.go:245-283 | a sequence query agrees with the grammar and has at least two stages |
| `ArqlParser.Parser.ParseSimple` | internal/hunt/parse.go:201-222 | a simple query agrees with the grammar |
| `ArqlParser.Parser.ParsePipe` | internal/hunt/parse.go:224-243 | a pipe agrees with the grammar |
| `ArqlParser.Parser.ParseStage` | internal/hunt/parse.go:285-298 | a stage agrees with the grammar |
| `ArqlParser.Parser.ParseClass` | internal/hunt/parse.go:300-309 | a class agrees with the grammar |
| `ArqlParser.Parser.ParseQuery` | internal/hunt/parse.go:186-199 | the choice between the two kinds of query agrees with the grammar |
| `ArqlPrinter.OrReadsBack` | internal/hunt/parse.go:313-327 | every expression written with the fewest parentheses is read back as itself, which fixes precedence and left association |
| `ArqlPrinter.AndReadsBack` | internal/hunt/parse.go:329-343 | `and` binds tighter than `or` and associates to the left |
| `ArqlPrinter.UnaryReadsBack` | internal/hunt/parse.go:345-367 | every expression in parentheses is read back as itself |
| `ArqlPrinter.QueryReadsBack` | internal/hunt/parse.go:186-298 | every query that has a token form is parsed from it |
| `ArqlPrinter.AcceptedQueriesReadBack` | internal/hunt/parse.go:163-478 | everything the parser accepts has a token form that parses to it again |
| `ArqlLexer.Lex` | internal/hunt/parse.go:51-84 | the lexing loop splits every text into the lexemes of its remaining text, or refuses it where that does |
| `ArqlLexer.LexString` | internal/hunt/parse.go:86-101 | a literal ends at its first unescaped quote, an unterminated one is refused |
| `ArqlLexer.LexNumber` | internal/hunt/parse.go:103-111 | digits and dots are a number, and a duration when a unit follows |
| `ArqlLexer.LexSymbol` | internal/hunt/parse.go:113-139 | two-character operators come before one-character ones, anything else is refused |
| `ArqlLexer.LexWhile` | internal/hunt/parse.go:141-147 | stops at the first character not kept |
| `ArqlText.LexedEndsInEof` | internal/hunt/parse.go:51-84 | every lexed list ends in EOF and holds no other, which is what the parser relies on |
| `ArqlText.StringReadsBack` | internal/hunt/parse.go:86-101 | escaping quotes and backslashes is undone for every text |
| `ArqlText.TokensReadBack` | internal/hunt/parse.go:51-155 | every token list the lexer can make is lexed from its written form |
| `ArqlText.LexingIsStable` | internal/hunt/parse.go:51-84 | writing out what was lexed and lexing again changes nothing |
| `ArqlText.Compile` | internal/hunt/parse.go:163-178 | every source text is lexed and parsed without a precondition on it |
| `ArqlText.QueryKeeps` | internal/hunt/parse.go:186-298 | every literal and class of a parsed query comes from a token the lexer made |
| `ArqlCompile.CompiledReadsBack` | internal/hunt/hunt.go:89-91 | whatever text a query was compiled from, its own text compiles to it again |
| `ArqlCompile.CompiledIsWellFormed` | internal/hunt/parse.go:446-462 | the comparisons of a compiled query are well-formed, as promotion needs them to be |
| `SigmaGlob.InferredAccepts` | internal/sigma/detection.go:224-241 | for every value and every subject the chosen operator accepts the glob, whose wildcards stop at newlines exactly when a regular expression was needed |
| `SigmaGlob.InferredIsGlob` | internal/sigma/detection.go:224-264 | on every newline-free subject the chosen operator accepts if and only if the glob does |
| `SigmaGlob.AgreesExactlyWithoutRegex` | internal/sigma/detection.go:224-264 | the choice accepts the glob on every subject if and only if no wildcard is inside the trimmed value |
| `SigmaGlob.RegexIsLineGlob` | internal/sigma/detection.go:245-264 | the escaped, anchored expression matches exactly the glob on lines, whatever characters needed escaping |
| `SigmaGlob.WildcardToRegex` | internal/sigma/detection.go:245-264 | the builder's loop writes the expression the theorems are about |
| `SigmaGlob.SigmaLeafFires` | internal/sigma/detection.go:183-195 | the leaf fires on an event exactly when the field is present and is a text that matches the glob, or a number or truth value that a string without wildcards denotes |
| `SigmaCondition.ParseCondition` | internal/sigma/condition.go:13-27 | there is a tree exactly when the tokens form a formula, and it is that formula's tree |
| `SigmaCondition.ConditionParser.ParseOr` | internal/sigma/condition.go:48-57 | the position-advancing parser builds the tree of the formula its remaining tokens start with |
| `SigmaCondition.ConditionParser.ParseAnd` | internal/sigma/condition.go:59-85 | likewise for conjunctions |
| `SigmaCondition.ConditionParser.ParseNot` | internal/sigma/condition.go:87-96 | likewise for negations |
| `SigmaCondition.ConditionParser.ParseAtom` | internal/sigma/condition.go:98-115 | likewise for names, groups and quantifiers |
| `SigmaCondition.ConditionParser.ParseGroup` | internal/sigma/condition.go:117-127 | a group needs its closing parenthesis |
| `SigmaCondition.ConditionParser.ParseQuantifier` | internal/sigma/condition.go:132-154 | a quantifier is refused when it matches no selection |
| `SigmaCondition.ConditionParser.SelectionsMatching` | internal/sigma/condition.go:156-164 | exactly the selections whose names match, in order |
| `SigmaCondition.Matching` | internal/sigma/condition.go:156-174 | the matching names are those of the list that the pattern takes, in words: all for `them`, those that begin with what stands before a final star, or the very name |
| `SigmaCondition.PatternTakes` | internal/sigma/condition.go:166-174 | the code's test of a name accepts it exactly when the pattern takes it: any for `them` in any spelling, a beginning before a final star, otherwise the same text |
| `SigmaCondition.QuantifierWords` | internal/sigma/condition.go:132-183 | of all counts and words `all` in any spelling makes a conjunction and `any` or `1` a disjunction, if `of` and a pattern that takes some name follow, and every other is refused |
| `SigmaMeaning.TreeMeansFormula` | internal/sigma/condition.go:48-164 | for every accepted formula and every truth assignment to the selections, the compiled tree has the formula's value and loads when the selections do |
| `SigmaMeaning.QuantifierMeans` | internal/sigma/condition.go:132-154 | `all of` is the conjunction and `1 of` the disjunction over exactly the names that the pattern takes |
| `SigmaMeaning.GroupTrees` | internal/sigma/rule.go:76-88 | collapsing a one-element group keeps its meaning |
| `SigmaMeaning.FormulaReadsBack` | internal/sigma/condition.go:48-127 | every formula is parsed from its tokens: `not` over `and` over `or` |
| `SigmaMeaning.ListIsOr` | internal/sigma/detection.go:50-64 | a list of conditions, each valid on its own, parses to their disjunction |
| `SigmaMeaning.ConditionListIsOr` | internal/sigma/detection.go:50-64 | the text joined for such a list tokenizes and parses to their disjunction |
| `SigmaMeaning.ListTextTokens` | internal/sigma/condition.go:38-42 | the joined text has the tokens of its parts in parentheses |
| `SigmaMeaning.AnchorMeans` | internal/sigma/sigma.go:94-104 | anchoring adds exactly the action guard, whether or not it flattens into an existing group |
| `CrossHost.CrossHost.Observe` | server/correlate/crosshost.go:71-91 | one alert moves the two indexes and emits the signals of the step functions |
| `CrossHost.CrossHost.Track` | server/correlate/crosshost.go:93-124 | one sighting updates its window and fires as the step functions say, including at the cap |
| `CrossHost.CrossHost.SweepExpired` | server/correlate/crosshost.go:141-148 | a sweep happens at most once per window and drops only expired hosts and empty keys |
| `CrossHost.CrossHost.SweepIndex` | server/correlate/crosshost.go:151-158 | deleting while ranging over the map leaves the pruned index |
| `CrossHost.CrossHost.PruneExpired` | server/correlate/crosshost.go:160-166 | deleting while ranging over the map leaves the hosts inside the window |
| `CrossHostExact.SignalsExact` | server/correlate/crosshost.go:71-166 | on every run with non-decreasing times in which no alert of the two keys was refused, each alert emits exactly the signals of cutting its keys' histories into windows and firing once when one first holds enough hosts |
| `CrossHostExact.SignalsExactIfFewLive` | server/correlate/crosshost.go:71-166 | the same whenever, at each alert, fewer keys than the cap were sighted within the last window, however many came before |
| `CrossHostExact.RoomIfFewLive` | server/correlate/crosshost.go:93-104 | whatever the times, an alert at the cap finds room after the reclaim if fewer other keys than the cap are live |
| `CrossHostExact.RefusedExactly` | server/correlate/crosshost.go:93-104 | on non-decreasing times, with none refused before, an alert with a key is refused if and only if as many other keys as the cap were sighted within the last window |
| `CrossHostExact.MeetsSpecificationExactly` | server/correlate/crosshost.go:59-166 | on every run in time order, every alert whose key was never refused signals as specified, if and only if the window is not negative or at least two hosts are asked for |
| `CrossHostExact.SingleHostDiffers` | server/correlate/crosshost.go:59-136 | with a negative window and one host asked for, a single alert tells them apart |
| `CrossHostExact.RunBounded` | server/correlate/crosshost.go:93-158 | whatever the times, no index exceeds the cap and every host in it was seen at the time it shows |
| `CrossHostExact.SignalsJustified` | server/correlate/crosshost.go:93-136 | whatever the times, every signal lists enough distinct hosts, sorted, each seen for that key within the window |
| `CrossHostExact.StepExact` | server/correlate/crosshost.go:93-158 | one alert that is not refused keeps its key's windows those of its history, with or without a sweep or a reclaim before it |
| `CrossHostExact.NegativeWindowIsSilent` | server/correlate/crosshost.go:59-67 | with a negative window no run emits any signal |
| `ProcessCorrelator.Correlator.Observe` | internal/detect/correlate.go:57-79 | one event moves the sessions and opens an incident as the step functions say |
| `ProcessCorrelator.Correlator.SweepStates` | internal/detect/correlate.go:106-115 | deleting while ranging leaves the sessions inside the window |
| `ProcessCorrelator.Correlator.FindState` | internal/detect/correlate.go:81-89 | a session older than the window is replaced, and a new key triggers a sweep |
| `ProcessCorrelator.Correlator.FoldAlerts` | internal/detect/correlate.go:57-96 | the alerts of one event are added to the session together |
| `ProcessCorrelator.DedupeStrings` | internal/detect/correlate.go:141-151 | the loop computes the first-occurrence dedupe |
| `ProcessCorrelator.DedupeElements` | internal/detect/correlate.go:141-151 | deduping keeps exactly the values that occur, each once |
| `ProcessCorrelator.DedupeKeepsOrder` | internal/detect/correlate.go:141-151 | deduping keeps the order of first occurrences |
| `ProcessCorrelator.ProcessKeyInjective` | internal/model/fields.go:87-89 | two processes with one key have the same pid and start time |
| `ProcessCorrelatorExact.IncidentsExact` | internal/detect/correlate.go:57-139 | on every run with non-decreasing times an incident opens exactly when the sum of the points of the key's current session first reaches the threshold, with that sum and that session's named techniques and rules, whatever was swept; the points are the risk score, or 80, 50, 25, 10 or 0 after the severity |
| `ProcessCorrelatorExact.TotalIsSum` | internal/detect/correlate.go:91-96 | the folded score of any alerts is the sum of their points |
| `ProcessCorrelatorExact.TechniquesAreNamed` | internal/detect/correlate.go:117-139 | the techniques reported are the non-empty ones of the alerts |
| `ProcessCorrelatorExact.OpensOnce` | internal/detect/correlate.go:57-79 | a session that has opened never opens again |
| `ProcessCorrelatorExact.StepHeld` | internal/detect/correlate.go:57-115 | one event keeps every key's state equal to its session |
| `FleetStore.Memory.Enroll` | server/store/memory.go:29-44 | adds one agent under the fresh identifier and changes nothing else |
| `FleetStore.Memory.SetPendingCert` | server/store/memory.go:69-79 | stages a certificate for a known agent only, keeping the current one |
| `FleetStore.Memory.PromoteCert` | server/store/memory.go:81-92 | promotes exactly the certificate that is staged and not empty |
| `FleetStore.Memory.Heartbeat` | server/store/memory.go:46-60 | records the reported counters, the rules version and the time for a known agent only, and changes nothing else of it |
| `FleetStore.Memory.EnqueueCommand` | server/store/memory.go:170-178 | appends to a known agent's queue only |
| `FleetStore.Memory.DrainCommands` | server/store/memory.go:180-186 | returns the whole queue in order and empties it |
| `FleetStore.Memory.RecordAlert` | server/store/memory.go:104-114 | keeps the newest alerts up to the limit |
| `FleetService.Service.AuthorizeIdentity` | server/api/service.go:107-131 | accepts exactly the current or the staged certificate of a known agent, completing the rotation in the second case |
| `FleetService.AuthorizedExactly` | server/api/service.go:107-131 | a known agent is accepted by its current certificate, by its staged one, or by any if it enrolled without; only the staged one, where there is another, completes a rotation |
| `FleetService.Service.Heartbeat` | server/api/service.go:137-157 | an accepted heartbeat delivers the whole queue, behind one UPDATE_RULES with the current version exactly when the agent reports another; a refused one changes nothing |
| `FleetService.Service.ReportAlerts` | server/api/service.go:162-197 | a stream files exactly the reports before the first that carries another agent, and only if its certificate is accepted for that agent, whose rotation it completes if the certificate was staged; nothing else changes |
| `FleetService.Service.FileReports` | server/api/service.go:162-197 | the loop stops at the first report of another agent |
| `FleetService.RetainedTwice` | server/store/memory.go:104-114 | trimming after every alert keeps the same alerts as trimming once at the end |
| `FleetRuns.AcceptedWasIdentified` | server/api/service.go:107-131 | in every interleaving of store calls, an accepted request was begun under a certificate that was current or staged for its agent at that moment |
| `FleetRuns.PromotionRetires` | server/api/service.go:117-127 | after a promotion the old certificate is refused in every continuation that does not stage it again |
| `FleetRuns.CurrentValidUntilPromoted` | server/store/memory.go:69-92 | the current certificate is accepted in every continuation without a promotion, however often others are staged |
| `FleetRuns.CurrentStaysValid` | server/store/memory.go:69-92 | no single step but a promotion changes an agent's current certificate |
| `FleetRuns.QueueConserved` | server/store/memory.go:170-186 | in every interleaving an agent's delivered batches followed by its queue are its accepted commands, in order, none lost or repeated |
| `FleetRuns.AcceptedMembers` | server/store/memory.go:170-178 | a command is among an agent's accepted ones exactly when it was queued while the agent was known |
| `FleetRuns.AlwaysCertified` | server/store/memory.go:29-44 | agents that enrol with a certificate always have one |
| `FleetRuns.FiledWasIdentified` | server/api/service.go:162-197 | in every interleaving, every alert on file was filed by a stream opened for its agent under a certificate that was current or staged at that moment |
| `FleetRuns.NewestFiledKept` | server/api/service.go:162-197 | in every interleaving the alerts on file are the newest of all that the streams filed, in order |
| `FleetRuns.NewestOnFile` | server/store/memory.go:104-114 | in every interleaving the alerts on file end the list of all filed, and are all of it or a thousand |
| `FleetRuns.StreamStays` | server/api/service.go:174-184 | no step of others ends a stream: only its own end or a report for another agent does |
| `FleetRuns.StreamOutlivesItsCertificate` | server/api/service.go:174-196 | a run in which a stream files an alert after its certificate was retired |
| `Responder.ClampMode` | internal/respond/responder.go:75-80 | the result is within the ceiling, and is the request whenever that is |
| `Responder.HostResponder.SetMode` | internal/respond/responder.go:63-72 | the posture becomes the request clamped to the ceiling |
| `Responder.HostResponder.Respond` | internal/respond/responder.go:84-150 | the host changes exactly if the request acts under the posture it read, and then as the action says |
| `Responder.HostResponder.Execute` | internal/respond/responder.go:152-176 | each action has its own effect, and a block without a destination has none |
| `Responder.HostResponder.Block` | internal/respond/network.go:47-72 | a repeated or invalid address adds nothing, and only a successful rule is remembered |
| `Responder.HostResponder.EnsureChain` | internal/respond/network.go:74-87 | the chain is up exactly if table and chain were both created |
| `Responder.HostResponder.ApplyCommand` | cmd/argus/fleet.go:179-203 | a remote command sets a clamped posture, makes one request with its effects on the host and on the blocker, or does nothing |
| `Responder.HostResponder.ApplyPolicy` | cmd/argus/fleet.go:243-259 | a pushed policy sets a clamped posture or leaves it |
| `ResponderRuns.PostureWithinCeiling` | internal/respond/responder.go:36-80 | over every interleaving of alerts, commands and policies the posture, and every posture read, is within the ceiling |
| `ResponderRuns.EffectsExplained` | internal/respond/responder.go:84-176 | every effect on the host has a request that arrived when the posture was enforce and that acts under it |
| `ResponderRuns.EffectsAsAsked` | internal/respond/policy.go:86-130 | in every run every effect is what its request warrants: of an alert the action it asks for, else killing at 90 points, blocking the destination or freezing at 75, freezing at 50 and nothing below, always on the alert's own process |
| `ResponderRuns.AlertIsCarriedOut` | internal/respond/responder.go:84-176 | and the converse: an alert read in enforce on an executable not allowlisted is carried out, with the host's outcome and what the blocker already has |
| `ResponderRuns.PostureIsLastSaid` | internal/respond/responder.go:63-80 | in every run the posture is the last one that a command or a pushed policy named, or the first one, at most the ceiling |
| `ResponderRuns.LowCeilingIsHarmless` | internal/respond/responder.go:36-150 | a ceiling below enforce means no effect on the host in any run |
| `ResponderRuns.AllowlistHonoured` | internal/respond/responder.go:84-106 | no alert ever acts on an allowlisted executable, or without a policy action |
| `ResponderRuns.DropsOnceAndAfterChain` | internal/respond/network.go:47-87 | in every run each address gets at most one successful drop rule, and every drop comes after table and chain |
| `Playbooks.PlaybookStore.Create` | server/soar/store.go:25-41 | a draft is stored exactly if it is valid, under an identifier not in use, in enforce exactly if it says enforce, off exactly if it says off, and replaces nothing |
| `Playbooks.PlaybookStore.Update` | server/soar/store.go:66-82 | a known playbook is replaced exactly if the draft is valid, keeping its identifier, and is in enforce exactly if the draft says so |
| `Playbooks.PlaybookStore.Delete` | server/soar/store.go:84-92 | removes that playbook only, and says whether it was there |
| `Playbooks.PlaybookStore.List` | server/soar/store.go:53-62 | all stored playbooks, by increasing identifier |
| `Playbooks.Validate` | server/soar/soar.go:99-118 | accepts exactly the drafts with a name, a known mode and at least one step, all of known types and every hunt with a query |
| `Playbooks.PlaybookIdInjective` | server/soar/store.go:35-36 | no identifier is given out twice |
| `Playbooks.CreateKeeps` | server/soar/store.go:25-41 | creating keeps every other playbook, and every stored playbook filed under its own identifier and valid |
| `Soar.Engine.Observe` | server/soar/engine.go:92-102 | a disabled engine does nothing; an enabled one runs the stored playbooks that match, in order, and keeps the newest records |
| `Soar.Engine.RunPlaybook` | server/soar/engine.go:118-130 | the steps run in order, for real only in enforce and not forced dry |
| `Soar.Engine.Record` | server/soar/engine.go:256-263 | keeps the newest records up to the limit |
| `Soar.Engine.Test` | server/soar/engine.go:106-114 | a rehearsal is a dry run whatever the playbook's mode, and fails exactly if the playbook is unknown |
| `Soar.EnqueuedExactly` | server/soar/engine.go:92-231 | a command is enqueued exactly when a commander is configured and some playbook in enforce mode is set off by the alert and has a step that orders it |
| `Soar.MatchesExactly` | server/soar/soar.go:62-79 | an alert sets off a trigger exactly when it meets each condition that the trigger has, in words |
| `Soar.EffectsExactly` | server/soar/engine.go:92-231 | an alert brings about a notification, a case, a hunt or a command exactly when a playbook that is not off is set off by it and has a step of that kind with its collaborator, in enforce or, for a hunt, in a dry run too |
| `Soar.NewestKept` | server/soar/engine.go:256-263 | of the records the last two hundred are kept |
| `Soar.DryRunOnlyHunts` | server/soar/engine.go:141-159 | a dry run has no effect but hunts |
| `SoarRuns.EveryFlightOnPlan` | server/soar/engine.go:92-130 | in every interleaving of switching, playbook changes, observations and rehearsals, each observation or rehearsal has had exactly the effects of the steps it has taken, in order |
| `SoarRuns.FinishedAsPromised` | server/soar/engine.go:92-130 | a finished one has had the effects of one undisturbed observation or rehearsal |
| `SoarRuns.EveryFlightCameFrom` | server/soar/engine.go:92-114 | every observation began with an alert that arrived while the engine was on, and runs the playbooks stored when it listed them |
| `SoarRuns.ObservedFlies` | server/soar/engine.go:92-102 | and every such alert is observed under those playbooks to the end of the run |
| `SoarRuns.QueuedWasOrdered` | server/soar/engine.go:92-231 | in every run, every command queued was ordered: its alert arrived while the engine was on, and a playbook then listed in enforce matches it and has a step that yields it; it was no rehearsal |
| `SoarRuns.QueuedExactly` | server/soar/engine.go:92-231 | in every run at rest a command has been queued by an observation if and only if it was ordered for it |
| `SoarRuns.DoneExactly` | server/soar/engine.go:92-231 | in every run at rest any effect, not only a command, has come of an observation if and only if its alert arrived while the engine was on and a playbook then stored does this for it |
| `SoarRuns.RehearsalsOnlyHunt` | server/soar/engine.go:104-114 | in every run a rehearsal has no effect but hunts |
| `SoarRuns.NeverOnNeverActs` | server/soar/engine.go:57-102 | an engine that was never switched on has only ever hunted, for rehearsals |
| `SoarReview.EveryPlaybookDrafted` | server/soar/store.go:25-82 | in every run every stored playbook is what a valid draft of that run says |
| `SoarReview.ActedWasDrafted` | server/soar/engine.go:92-231 | in every run every effect but a hunt goes back to a valid draft that asked for enforce and has a step that acts |
| `SoarReview.NewPlaybookActs` | server/soar/store.go:25-41 | for every valid draft, a run that creates it and updates nothing has every effect the playbook has for its alert, even with the engine switched off before the playbooks are listed |
| `SoarReview.SafeExactly` | server/soar/store.go:10-41 | a draft does nothing but hunt in every run that only creates it if and only if it is refused, does not ask for enforce, or has no step that acts |
| `SoarReview.KillAfterSwitchOff` | server/soar/engine.go:92-102 | a run in which a new playbook queues a kill after the engine was switched off |
| `CommandRuns.QueueingExactly` | cmd/argus-server/soar.go:29-33 | in every joint run the store calls that queue a command are exactly the operators' and those of the engine's steps |
| `CommandRuns.AskedExactly` | cmd/argus-server/soar.go:29-33 | once the engine is at rest the store was asked to queue a command if and only if an operator asked or a playbook ordered it |
| `CommandRuns.CommandsExplained` | server/store/memory.go:170-186 | every command ever sent to an agent or waiting for it was queued by an operator or ordered by a playbook |
| `CommandRuns.AskedAsMeant` | cmd/argus/fleet.go:179-203 | what a step orders is addressed to the alert's agent, and the responder there reads a kill step's command as killing that alert's process and a quarantine step's as blocking its destination |
| `CommandRuns.HostEffectsExplained` | cmd/argus/fleet.go:179-203 | whatever a host suffered without an alert of its own was asked for by a command that an operator queued or a playbook ordered for it, heard in enforce and within the ceiling |
| `IsolationForest.BuildTree` | internal/anomaly/iforest.go:82-107 | under any random choices the tree is grown from its subsample and no deeper than allowed |
| `IsolationForest.BuildForest` | internal/anomaly/iforest.go:47-70 | as many trees as asked for or the default, each grown from its own subsample within the depth bound; none without data |
| `IsolationForest.LeavesSum` | internal/anomaly/iforest.go:82-107 | leaf sizes sum to the subsample |
| `IsolationForest.LeafCountsItsVectors` | internal/anomaly/iforest.go:146-154 | each leaf's size is exactly the number of subsample vectors that scoring routes to it |
| `IsolationForest.PathLengthIsRoute` | internal/anomaly/iforest.go:146-154 | every vector's route ends in a leaf within the tree's height, and its path length is the route's length plus the leaf's correction |
| `IsolationForest.FeatureRange` | internal/anomaly/iforest.go:109-120 | the range is attained at both ends and covers every vector |
| `IsolationForest.SplitPoint` | internal/anomaly/iforest.go:91-91 | the split lies at or above the low end and strictly below the high end |
| `IsolationForest.Split` | internal/anomaly/iforest.go:93-100 | the loop partitions the vectors by the split, in order |
| `IsolationForest.SubsampleOf` | internal/anomaly/iforest.go:74-80 | draws the asked number of vectors, all from the samples |
| `IsolationForest.CeilLog2Exact` | internal/anomaly/iforest.go:60-63 | the depth bound is the least power-of-two exponent that covers the subsample |
| `IsolationForest.MaxDepthExactly` | internal/anomaly/iforest.go:60-63 | the depth allowed is at least one and otherwise the least whose power of two covers the subsample |
| `IsolationForest.SharesExactly` | internal/anomaly/iforest.go:93-100 | the left share holds exactly the vectors strictly below the split and the right share the others |
| `ArgvPack.Pack` | bpf/edr.bpf.c:131-150 | the offset never leaves the buffer and the used bytes are the packed strings |
| `ArgvPack.Mask` | bpf/edr.bpf.c:144-144 | the bitwise mask never changes an offset inside the buffer |
| `ArgvPack.ReadUserStr` | bpf/edr.bpf.c:145-145 | the string is cut to fit, closed by a NUL, and nothing after it is touched |
| `ArgvPack.PackedIsPrefix` | bpf/edr.bpf.c:137-149 | the packed strings are the starts of at most 32 arguments, all whole except perhaps the last, and fit the buffer |
| `ArgvPack.ParseArgs` | internal/decode/wire.go:190-202 | filtering the parts through the front of their own array keeps the non-empty ones in order |
| `ArgvPack.UnpackPacked` | internal/decode/wire.go:190-202 | unpacking what was packed gives the non-empty packed strings |
| `ArgvPack.RoundTrip` | bpf/edr.bpf.c:131-150 | for every argument vector the agent sees, in order, the non-empty strings of such a prefix, and the whole vector if and only if it fits whole |
| `ArgvPack.WholeExactly` | bpf/edr.bpf.c:137-149 | nothing is lost if and only if there are at most 32 arguments, all readable and non-empty, whose bytes with NULs fit the buffer |
| `DnsName.ParseDNSName` | internal/decode/wire.go:149-171 | the name is the dotted form of the labels the message spells, and empty if it spells none |
| `DnsName.ScanExact` | internal/decode/wire.go:154-169 | bytes spell at most one label list, and reading label by label finds exactly it |
| `DnsName.RoundTrip` | internal/decode/wire.go:149-171 | every list of labels of 1 to 63 bytes, encoded as section 4.1.2 of RFC 1035 says behind any header, is read back |
| `DnsName.JoinInjective` | internal/decode/wire.go:164-167 | dot-free labels are determined by their name |
| `DnsName.NameReadsBackExactly` | internal/decode/wire.go:164-167 | splitting a name at its dots gives its labels back if and only if no label holds a dot |
| `DnsName.InnerDotIsAmbiguous` | internal/decode/wire.go:164-167 | every list with a dot inside a label shares its name with another list of valid labels |
| `DnsName.ShortNeighboursAreAmbiguous` | internal/decode/wire.go:154-167 | so does every list with two neighbours that fit one label together with a dot |
| `DnsName.DotFreeIsNamedExactly` | internal/decode/wire.go:154-167 | no other list has a dot-free list's name if and only if it has no such neighbours |
| `DnsName.LoneLabelIsNamedExactly` | internal/decode/wire.go:154-167 | no other list has a lone label's name if and only if no dot lies inside it; a dot at either end does no harm |
| `DnsName.NamedExactly` | internal/decode/wire.go:154-167 | no other valid list has a list's name if and only if reading the name from its end with the shortest labels and with the longest gives the same |
| `DnsName.DottedLabelIsAmbiguous` | internal/decode/wire.go:164-167 | two label lists with one name, one of which holds a dot |
| `EventBus.InProc.Publish` | internal/bus/inproc.go:32-49 | a cancelled or closed publish changes nothing; otherwise every registered subscriber with room has the event and the others are counted |
| `EventBus.InProc.Send` | internal/bus/inproc.go:42-47 | a send needs an open channel, and queues or counts |
| `EventBus.InProc.Subscribe` | internal/bus/inproc.go:51-60 | registers one open, empty channel of the asked or default size |
| `EventBus.InProc.Remove` | internal/bus/inproc.go:66-73 | closes the channel of a registered subscription and no other |
| `EventBus.InProc.Close` | internal/bus/inproc.go:75-87 | closes every registered channel once; a second close changes nothing |
| `EventBus.InProc.Unsubscribe` | internal/bus/inproc.go:97-99 | afterwards the subscription is not registered, however often it is called |
| `EventBusRuns.RegisteredExactlyWhenOpen` | internal/bus/inproc.go:32-99 | in every interleaving a subscription is registered exactly when its channel is open, and no step that can come next sends on or closes a closed channel |
| `EventBusRuns.QuietAfterClose` | internal/bus/inproc.go:66-99 | after a channel is closed no later step sends on it or closes it again |
| `EventBusRuns.EveryOfferMade` | internal/bus/inproc.go:32-49 | every event published while a subscriber is registered is offered to it exactly once, in publish order |
| `EventBusRuns.OffersConserved` | internal/bus/inproc.go:42-47 | offers are the accepted plus the dropped, and the accepted are a subsequence of them |
| `EventBusRuns.CounterCountsDrops` | internal/bus/inproc.go:62-64 | the exposed counter is the number of drops modulo its width |
| `EventBusRuns.ChannelIsFifo` | internal/bus/inproc.go:89-95 | a consumer has received, in order, all its channel accepted but what is still buffered |
| `EventBusRuns.PublisherOrderKept` | internal/bus/inproc.go:32-49 | with any number of publishers a subscriber accepts each one's events in that one's order |
| `EventBusRuns.SingleFileOrder` | internal/bus/inproc.go:32-49 | under a single publisher each subscriber receives a subsequence of the publish order |
| `EventBusRuns.LateSubscriber` | internal/bus/inproc.go:51-87 | a subscription made after Close is open until it unsubscribes and is never offered anything |
| `AuditChain.AuditLog.Record` | cmd/argus-server/audit.go:48-73 | everything one instance has written verifies under its key, and the entry holds what was recorded |
| `AuditChain.VerifyAuditChain` | cmd/argus-server/audit.go:98-112 | succeeds exactly on intact logs and otherwise reports the first faulty entry and its fault |
| `AuditChain.CanonicalIdentifies` | cmd/argus-server/audit.go:78-81 | no other entry shares an entry's canonical form if and only if none of its four texts holds the separator |
| `AuditChain.UncleanIsAmbiguous` | cmd/argus-server/audit.go:78-81 | for every entry with the separator in a text, another with the same canonical form |
| `AuditChain.FinalHashCommits` | cmd/argus-server/audit.go:83-112 | a verifying log of clean texts is the only verifying log with its final hash (same length, entries, hashes, and signatures when keyed), or the two logs hold entries whose texts collide under the hash |
| `AuditChain.CommittedExactly` | cmd/argus-server/audit.go:78-112 | short of a collision no other verifying log has a verifying log's final hash, if and only if all its texts are clean |
| `AuditChain.SameLength` | cmd/argus-server/audit.go:78-112 | clean or not, verifying logs with one final hash are equally long, or hold a collision |
| `AuditChain.TruncationVerifies` | cmd/argus-server/audit.go:98-112 | every prefix of a verifying log verifies, and has another final hash unless it is the whole or the log holds a collision |
| `AuditChain.RestartBreaksChain` | cmd/argus-server/audit.go:44-46 | two logs in one file verify together only if one of them is empty |
| `AttackGraph.Build` | server/investigate/graph.go:79-88 | the graph is that of the actions of its events, then of its annotations |
| `AttackGraph.Builder.AddEvent` | server/investigate/graph.go:90-101 | the actor is touched, then the parent and its spawn edge, then the object and its edge, in that order |
| `AttackGraph.Builder.LinkParent` | server/investigate/graph.go:106-112 | only an exec or fork with a parent adds a parent and a spawn edge |
| `AttackGraph.Builder.Process` | server/investigate/graph.go:114-125 | a process node keeps an informative label and takes the newest command line |
| `AttackGraph.Builder.File` | server/investigate/graph.go:127-131 | a file node is made from its path alone |
| `AttackGraph.Builder.Network` | server/investigate/graph.go:133-137 | an endpoint node is made from its name alone |
| `AttackGraph.Builder.Ensure` | server/investigate/graph.go:139-147 | an existing node is left, a new one is added once to the map and to the order |
| `AttackGraph.Builder.AddLink` | server/investigate/graph.go:149-154 | an edge is added unless its key is taken |
| `AttackGraph.Builder.Annotate` | server/investigate/graph.go:156-169 | only a process that is in the graph is marked |
| `AttackGraph.Builder.Finish` | server/investigate/graph.go:173-192 | the result holds every node and edge, sorted |
| `AttackGraphExact.EdgesExact` | server/investigate/graph.go:90-112 | the edges are exactly the causal triples of the events, strictly sorted |
| `AttackGraphExact.EdgesInWords` | server/investigate/graph.go:60-137 | there is an edge exactly when an event tells it: a child was started, a file was opened, deleted, renamed, its mode changed or accessed, a name was resolved, or an address connected to, the first of these that the event has an object for |
| `AttackGraphExact.EdgesSorted` | server/investigate/graph.go:181-190 | edges come by source, then target, then kind, none twice |
| `AttackGraphExact.EdgeKeyInjective` | server/investigate/graph.go:149-154 | the joined key tells apart all edges the builder makes, even when a path holds the separator |
| `AttackGraphExact.KeysOtherwiseCollide` | server/investigate/graph.go:149-154 | two edges the builder never makes that share a key |
| `AttackGraphExact.EdgesAreLinks` | server/investigate/graph.go:149-154 | deduplication by key loses no edge and keeps no other |
| `AttackGraphExact.NodesExact` | server/investigate/graph.go:90-147 | the nodes are exactly the entities the events involve, strictly sorted by id |
| `AttackGraphExact.NodesInWords` | server/investigate/graph.go:60-147 | there is a node exactly for each process, parent, file, name or address that an event shows |
| `AttackGraphExact.EndpointsAreNodes` | server/investigate/graph.go:90-112 | both ends of every edge are nodes |
| `AttackGraphExact.IdInjective` | server/investigate/graph.go:114-137 | distinct processes, files and endpoints have distinct ids |
| `AttackGraphExact.ProcessNodesExact` | server/investigate/graph.go:114-125 | a process node carries its first informative label and its last command line |
| `AttackGraphExact.LabelExactly` | server/investigate/graph.go:201-209 | a process is labelled by its name, else by its executable's last part, else by its pid |
| `AttackGraphExact.BaseNameExactly` | server/investigate/graph.go:211-216 | the last part is what follows the last slash, and the whole path if nothing does |
| `AttackGraphExact.ObjectNodesExact` | server/investigate/graph.go:127-137 | file and endpoint nodes are determined by their path or name |
| `AttackGraphExact.DetectionsExact` | server/investigate/graph.go:156-169 | every node carries the sorted set of the techniques on its process and a severity of the highest rank among them, and alerts exactly if there is an annotation |
| `AttackGraphExact.RankExactly` | server/investigate/graph.go:225-227 | the severities rank info, low, medium, high, critical in any spelling, and any other text below them |
| `AttackGraphExact.OrderIndependent` | server/investigate/graph.go:171-192 | events and annotations in any order, with any repetition, give the same edges, the same nodes in the same places, and the same kinds, techniques and severity ranks on them |
| `AttackGraphExact.DetailFollowsOrder` | server/investigate/graph.go:121-123 | the command line shown is the last event's, so it depends on the order |
| `AttackGraphOrder.OrderFreeExactly` | server/investigate/graph.go:79-192 | the whole graph is the same for every order of events and annotations if and only if every event that names a process gives it the same first informative label, its command lines are all the same, and its highest severities are spelled alike |
| `AttackGraphOrder.SteadyIsEnough` | server/investigate/graph.go:79-192 | under that condition any two orders give the same graph |
| `AttackGraphOrder.TwoLabelsDiffer` | server/investigate/graph.go:114-125 | two events that label a process differently give different graphs in some two orders |
| `AttackGraphOrder.TwoCommandsDiffer` | server/investigate/graph.go:121-123 | two events with different command lines of a process give different graphs in some two orders |
| `AttackGraphOrder.TwoSpellingsDiffer` | server/investigate/graph.go:156-169 | two highest severities of a process that are spelled differently give different graphs in some two orders |
| `EventLake.LikeIsContains` | internal/eventstore/sqlite.go:140-142 | the SQL search agrees with the substring search on every text if and only if the searched-for text holds no wildcard |
| `EventLake.FiltersAgreeExactly` | internal/eventstore/eventstore.go:76-96 | memory and SQL select the same events if and only if the searched-for text holds no wildcard, the time range is empty, or the host asked for already contains the text |
| `EventLake.OvermatchedDiffers` | internal/eventstore/sqlite.go:140-142 | for every other query, an event that SQL selects and memory does not |
| `EventLake.FiltersAgree` | internal/eventstore/eventstore.go:76-96 | SQL selects every event memory selects, and no other when Contains holds no wildcard |
| `EventLake.SearchFinds` | internal/eventstore/eventstore.go:98-108 | a search finds every event with a searched field that holds the text in any case, and for a text without a space no other |
| `EventLake.WhereParts` | internal/eventstore/sqlite.go:118-147 | the rendered conditions together say what each set field of the query asks |
| `EventLakeStore.Memory.Append` | internal/eventstore/memory.go:23-31 | appends the events in order, or nothing when cancelled |
| `EventLakeStore.Memory.Query` | internal/eventstore/memory.go:33-56 | shows the first of the matching events, sorted stably, as many as the limit or a thousand |
| `EventLakeStore.Memory.Prune` | internal/eventstore/memory.go:64-78 | compacting in place keeps exactly the events not older than the cut, in order, and counts the rest |
| `EventLakeStore.StableSortOrders` | internal/eventstore/memory.go:46-51 | events sorted stably are in time order, and in append order among equals |
| `EventLakeStore.AscendingAgrees` | internal/eventstore/sqlite.go:85-92 | oldest first, memory's answer is the one and only answer of the SQL statement |
| `EventLakeStore.ListingsAgreeExactly` | internal/eventstore/sqlite.go:85-92 | listing ties in append order and against it shows the same first events if and only if, at every time they reach, the events tied there read the same from both ends as far as that |
| `EventLakeStore.NewestAgreesExactly` | internal/eventstore/sqlite.go:85-92 | newest first and without wildcards, memory shows what the statement shows if and only if the matching events read so |
| `EventLakeStore.DistinctTimesAgree` | internal/eventstore/sqlite.go:85-92 | over distinct timestamps the two always show the same |
| `EventLakeStore.AscendingAnswerInTimeOrder` | internal/eventstore/memory.go:46-55 | an answer oldest first is in time order, as the sequence matcher assumes |
| `EventLakeStore.HistoriesAgree` | internal/eventstore/sqlite.go:149-162 | after every history of appends and prunes both backends hold the same events |
| `EventLakeStore.CountIsConserved` | internal/eventstore/sqlite.go:149-162 | in both backends the count is what was appended less what was pruned |
| `EventLakeStore.PruneReportsAgree` | internal/eventstore/sqlite.go:155-162 | a prune reports the same number in both |
| `EventLakeStore.AnswersAgreeExactly` | internal/eventstore/sqlite.go:85-147 | over the same events both show the same events if and only if no event that only SQL selects comes within the limit and, newest first, the matching events of each time read the same from both ends as far as the limit reaches |
| `EventLakeStore.BackendsAgree` | internal/eventstore/sqlite.go:85-147 | after any history, and for every query, with that condition both show the same events, and only then |
| `EventLakeStore.AlwaysAgreesExactly` | internal/eventstore/sqlite.go:85-147 | both show the same events after every history if and only if the query's time range is empty, or it asks for the oldest first and its filters agree |
| `EventLakeStore.TieTells` | internal/eventstore/sqlite.go:85-92 | for every query newest first that some event matches, two different events of one time on which the backends differ |

## Left out

- gRPC, TLS, certificate minting, the HTTP and console handlers and live streaming: transport and user interface.
- The other kernel sensors, LSM hooks and the loading of eBPF programs: calls into the kernel; only the argument packing loop is modelled.
- YAML and JSON reading and writing, the SQLite engine, the regular-expression engine beyond the fragment that Sigma wildcards use, and the cryptographic functions: taken as parameters or as relational specifications.
- Rule synchronisation and the versioned ruleset on disk: file system work; only the policy file's effect on the posture is modelled.
- YARA matching, threat intelligence, metrics, triage, cases, ECS and OCSF projections and configuration checks: lookups, formatting and one-branch checks.
- Anomaly rarity, entropy and the correction term of the path length: logarithms over floats; the correction is a parameter of the path length.
- Reporter, notifier, Loki and watchdog timing: wall-clock and network behaviour.
- Floating-point rounding: floats are reals, so a literal is exact and a split point is strictly below the high end of its range.
- Non-ASCII text rules: lower-casing and case-insensitive comparison fold ASCII letters only, and trimming knows the white space of Latin-1 only.
- Nanosecond time stamps outside the range of UnixNano: times are unbounded integers and the zero time of a query bound is its absence.
- The text of signal summaries, incident identifiers, error messages and log lines.
- The response record written onto an alert: only the effects on the host are modelled.
- Agent versions and kernels, alert identifiers, alert queries and pruning in the control-plane store.
- The control plane's SQLite store: it repeats the memory store's interface.
- The result limit of a simple hunt and the mapping from a query to the store's coarse filter: a store query and a truncation.
- Creation and update times of playbooks, and changing the notifier of a running engine.
- Other Sigma modifiers, selection maps and keyword lists: only string values, conditions and the action anchor are modelled.
- IsolationForest.SplitPoint: over reals, where rounding could reach the high end.
- EventBusRuns.LateSubscriber: says nothing of a publisher already inside Publish when Close is called, since Close waits for it.
