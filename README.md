# logic-lens core in Dafny

A Dafny model of the computational core of logic-lens (shown in its pages as
LogiSketch). The app turns a Boolean function of a few variables into a simplified
sum-of-products equation and a gate network, in both directions:

- **Prime implicants** (`getPrimeImplicants`, `BooleanSimplifier`). Quine–McCluskey
  tabulation over cubes of `0`, `1` and `-`: the minterms of the true rows are merged
  level by level, and every cube that merges with nothing is a prime implicant. The
  model keeps the loops as methods with invariants. It proves that the result is
  exactly the set of prime implicants of the table, without duplicates, and that their
  sum is the original function.
- **Equation formatter** (`getSimplifiedEquation`, `SopFormat`). It prints each
  implicant as a product of letters (`A'` for a 0 bit), sorts the products shorter
  first and then by text, and joins them with ` + `. "0" and "1" are printed for the
  constant functions.
- **Equation parser** (`parseEquationToTable`, `EquationParser`). A tokenizer and a
  recursive-descent parser over a shared cursor. `+` is OR, juxtaposition is AND and a
  postfix `'` is NOT; parentheses and the constants 0 and 1 are also accepted. The
  equation is evaluated on each of the 2^n rows and gives a table or nothing. The three
  parse methods live on a `Parser` class (token list, cursor, row values). They are
  proved against a grammar given as functions.
- **Two-way binding** (`RoundTrip`). The printed equation of a table parses back, on
  every row, to that table's value.
- **Gate synthesizer** (`generateCircuit`). It builds input, shared-inverter, per-term
  gate, final gate, fixer and output nodes, plus the wires between them, in the
  STANDARD, NAND-only or NOR-only basis.
  - `CircuitGenerator` specifies each phase as a function and proves the whole graph
    well formed. It also proves that the output computes the sum of the terms on every
    assignment, in all three bases.
  - `CircuitShape` proves the structure of the graph: how many nodes of each kind
    there are and what is wired into each.
  - `CircuitSynthesis` builds the graph the way the generator does: lists that grow by
    appending, under a running id counter. Each phase is proved equal to its
    stage function, so `GenerateCircuit` returns a graph whose output is 1 exactly on
    the true rows of the table.
- `Circuits` gives the graph its meaning: each gate applies its operation to the
  signals wired into it, in wire order. `Bits` relates row numbers to assignments,
  with variable A as the most significant bit.

Two facts of the code shape the model:

- **No minimal cover.** The code has no minimal-cover or essential-implicant step:
  BooleanSimplifier.ts line 59 returns every prime implicant, and CircuitGenerator.ts
  line 19 builds a gate for each of them.
- **Term order.** The comparator at BooleanSimplifier.ts line 80 puts shorter products
  first, so the XNOR of A and B prints as "AB + A'B'" (`SopFormat.XnorExample`).

## Model

| member | source | states |
|---|---|---|
| Bits.FromBitsOfRowBits | logic-lens/utils/EquationParser.ts:74-76 | reading back the padded binary assignment of a row r < 2^n gives r |
| Bits.RowBitsOfFromBits | logic-lens/utils/BooleanSimplifier.ts:2 | every n-bit assignment is the padded binary of its own row number |
| Bits.RowBitsInjective | logic-lens/utils/EquationParser.ts:74-76 | two rows below 2^n with the same assignment are the same row |
| Bits.RowBitsAt | logic-lens/utils/BooleanSimplifier.ts:2 | variable k of row r is bit n-1-k of r, so A is the most significant bit |
| Cubes.Minterm | logic-lens/utils/BooleanSimplifier.ts:19 | the cube of an assignment has a 1 exactly where the assignment is true and no dash |
| Cubes.MintermMatches | logic-lens/utils/BooleanSimplifier.ts:19 | the cube of an assignment matches that assignment and no other |
| Cubes.DiffCountOne | logic-lens/utils/BooleanSimplifier.ts:33-40 | the difference count is 1 exactly when the cubes agree everywhere except at the one differing position |
| Cubes.MergeLevel | logic-lens/utils/BooleanSimplifier.ts:43 | two cubes of the same level that differ at one position differ in 0 against 1 there, give the same cube when that position becomes a dash, and the merge has one more dash |
| Cubes.MergeMatches | logic-lens/utils/BooleanSimplifier.ts:43 | the merged cube matches exactly the assignments that either parent matches |
| Cubes.FullDashCount | logic-lens/utils/BooleanSimplifier.ts:17 | a cube is all dashes exactly when its dash count is its width |
| BooleanSimplifier.TrueRows | logic-lens/utils/BooleanSimplifier.ts:8-13 | the kept minterms are exactly the rows below 2^n whose value is 1, in increasing order; rows of a larger table are dropped; there are 2^n of them exactly when every row is true |
| BooleanSimplifier.ToBin | logic-lens/utils/BooleanSimplifier.ts:2 | the padded binary of m is a dash-free cube of width n that matches only row m |
| BooleanSimplifier.CountDifferences | logic-lens/utils/BooleanSimplifier.ts:33-40 | the count is the number of positions where the cubes differ; when it is 1, the index is that position and the cubes agree elsewhere; otherwise no single-position difference exists |
| BooleanSimplifier.MergeIsImplicant | logic-lens/utils/BooleanSimplifier.ts:42-44 | merging two implicants that differ at one position gives an implicant |
| BooleanSimplifier.ComparePair | logic-lens/utils/BooleanSimplifier.ts:42-47 | when the pair differs at one position, its merge joins the next group and both cubes are marked used; nothing else is added or marked; the next group stays duplicate-free |
| BooleanSimplifier.MergeWithLater | logic-lens/utils/BooleanSimplifier.ts:29-48 | after the inner loop, the merge of cube i with every later partner is in the next group and all such partners are marked used |
| BooleanSimplifier.MergePairs | logic-lens/utils/BooleanSimplifier.ts:24-49 | one round: the next group holds exactly the merges of partner pairs, without duplicates, and a cube is marked used exactly when it has a partner |
| BooleanSimplifier.MintermsAreLevelZero | logic-lens/utils/BooleanSimplifier.ts:19 | the first group is exactly the dash-free implicants, the minterms of the true rows |
| BooleanSimplifier.PartnerIffNotPrime | logic-lens/utils/BooleanSimplifier.ts:51-53 | within a level, a cube has a merge partner exactly when it is not a prime implicant |
| BooleanSimplifier.NextLevel | logic-lens/utils/BooleanSimplifier.ts:42-47 | if the group is all implicants with k dashes, the merged group is all implicants with k + 1 dashes |
| BooleanSimplifier.CollectUnused | logic-lens/utils/BooleanSimplifier.ts:51-53 | the primes gain exactly the cubes of the group that were not used, and stay duplicate-free |
| BooleanSimplifier.CollectedRound | logic-lens/utils/BooleanSimplifier.ts:51-53 | after round k, the primes collected are exactly the prime implicants with at most k dashes |
| BooleanSimplifier.LastRound | logic-lens/utils/BooleanSimplifier.ts:55 | once the next group is empty, the primes collected are all the prime implicants |
| BooleanSimplifier.MergeLevels | logic-lens/utils/BooleanSimplifier.ts:23-57 | the tabulation loop ends with exactly the prime implicants, without duplicates |
| BooleanSimplifier.PrimeImplicants | logic-lens/utils/BooleanSimplifier.ts:6-60 | the result is exactly the prime implicants, without duplicates; it is empty exactly when no row is true, and it is the single all-dash cube exactly when every row is true |
| BooleanSimplifier.NoTrueRowNoImplicant | logic-lens/utils/BooleanSimplifier.ts:15 | with no true row, no cube is an implicant |
| BooleanSimplifier.AllTrueOnlyAllDash | logic-lens/utils/BooleanSimplifier.ts:17 | with every row true, the only prime implicant is the all-dash cube |
| BooleanSimplifier.ExtendToPrime | logic-lens/utils/BooleanSimplifier.ts:23-57 | every implicant matching an assignment grows into a prime implicant that still matches it |
| BooleanSimplifier.PrimesCoverExactlyTrueRows | logic-lens/utils/BooleanSimplifier.ts:6-60 | the sum of the prime implicants is 1 on a row exactly when the row is true |
| BooleanSimplifier.OnlyTrueRowsMatter | logic-lens/utils/BooleanSimplifier.ts:10-13 | two tables with the same true rows have the same prime implicants, so rows of a larger table and values other than 1 are ignored |
| BooleanSimplifier.MergeExample | logic-lens/app/how-it-works/page.tsx:145-166 | 110 and 111 differ only in the last place and merge into 11-, which is a prime implicant of the function that is 1 on rows 6 and 7 |
| SopFormat.Letter | logic-lens/utils/BooleanSimplifier.ts:3 | variable i is printed as the letter i places after A |
| SopFormat.RenderTerm | logic-lens/utils/BooleanSimplifier.ts:72-77 | the product loop prints the term's letters in position order, with a `'` after each letter whose bit is 0, and prints "1" when there is no literal |
| SopFormat.RenderTerms | logic-lens/utils/BooleanSimplifier.ts:71-78 | every implicant is printed, in order |
| SopFormat.TextLeqTotal | logic-lens/utils/BooleanSimplifier.ts:80 | the comparator (shorter first, then by text) is total |
| SopFormat.SortTextsCorrect | logic-lens/utils/BooleanSimplifier.ts:80 | the sorted products are ordered by the comparator and are a permutation of the printed products |
| SopFormat.FormatConstants | logic-lens/utils/BooleanSimplifier.ts:67-69 | the equation is "0" exactly when no row is true, and "1" when every row is true |
| SopFormat.JoinNotZero | logic-lens/utils/BooleanSimplifier.ts:80 | a joined list of printed products is never "0" |
| SopFormat.XnorExample | logic-lens/utils/BooleanSimplifier.ts:71-80 | the primes 00 and 11 print as "AB + A'B'" |
| SopFormat.SimplifiedEquation | logic-lens/utils/BooleanSimplifier.ts:63-81 | the equation is the format of a duplicate-free listing of exactly the prime implicants; it is "0" exactly when no row is true, and "1" when every row is true |
| EquationParser.UpperCase | logic-lens/utils/EquationParser.ts:8 | every character is upper-cased, in place |
| EquationParser.ReplaceQuotes | logic-lens/utils/EquationParser.ts:9 | curly single quotes and backticks become `'`, in place |
| EquationParser.StripWhitespace | logic-lens/utils/EquationParser.ts:10 | no whitespace is left |
| EquationParser.KeepTokenChars | logic-lens/utils/EquationParser.ts:13 | only characters of the allow-list A-Z, 0, 1, +, (, ) and ' are left |
| EquationParser.StripWhitespaceAppend | logic-lens/utils/EquationParser.ts:10 | whitespace removal works character by character: it distributes over concatenation, drops a whitespace character and keeps any other |
| EquationParser.KeepTokenCharsAppend | logic-lens/utils/EquationParser.ts:13 | the allow-list filter works character by character: it distributes over concatenation, keeps an allowed character and drops any other |
| EquationParser.CharTokensCases | logic-lens/utils/EquationParser.ts:7-13 | per character: lower-case letters become upper-case, quote variants become `'`, whitespace is dropped, allow-listed characters are kept |
| EquationParser.TokenizeAppend | logic-lens/utils/EquationParser.ts:7-13 | the tokens of a concatenation are the concatenated tokens, since tokenizing works character by character |
| EquationParser.TokenizeTokens | logic-lens/utils/EquationParser.ts:7-13 | text made only of allow-listed characters tokenizes to itself |
| EquationParser.Expr | logic-lens/utils/EquationParser.ts:20-28 | a successful expression consumes at least one token and ends inside the token list |
| EquationParser.Term | logic-lens/utils/EquationParser.ts:30-37 | a successful term consumes at least one token and ends inside the token list |
| EquationParser.Factor | logic-lens/utils/EquationParser.ts:39-66 | a successful factor consumes at least one token and ends inside the token list |
| EquationParser.Postfix | logic-lens/utils/EquationParser.ts:61-64 | the quote loop always succeeds and never moves the cursor backwards |
| EquationParser.PostfixToggles | logic-lens/utils/EquationParser.ts:61-64 | a run of q quotes negates the value q times and stops at the first token that is not a quote |
| EquationParser.ExprConsumes | logic-lens/utils/EquationParser.ts:20-66 | the stretch of tokens a successful parse consumes holds only variables of the n inputs and as many `(` as `)` |
| EquationParser.UnknownVariableRejected | logic-lens/utils/EquationParser.ts:46-50 | a variable letter at or beyond the n-th makes the equation invalid, on every row and for the table |
| EquationParser.UnbalancedRejected | logic-lens/utils/EquationParser.ts:43-45 | a token list with more `(` than `)` or the reverse is invalid on every row: a missing `)` fails the check at line 45, a stray one is left over for the check at line 81 |
| EquationParser.LeadingOperatorRejected | logic-lens/utils/EquationParser.ts:41-58 | an empty equation, or one starting with `+`, `)` or `'`, is invalid on every row, for every number of inputs |
| EquationParser.ParseExamples | logic-lens/utils/EquationParser.ts:20-66 | over one input, A'' reads A, 0A+1 reads 1 (juxtaposition binds tighter than +), and a missing ), a stray ), an unknown variable B, an empty equation and a lone + are rejected |
| EquationParser.AcceptsEveryRow | logic-lens/utils/EquationParser.ts:73-84 | whether parsing succeeds with no tokens left does not depend on the row, so a table comes back for every row or for none |
| EquationParser.Parser.constructor | logic-lens/utils/EquationParser.ts:15 | the parser starts with its tokens, the cursor at 0 and no variable values |
| EquationParser.Parser.ParseExpression | logic-lens/utils/EquationParser.ts:20-28 | fails exactly when the grammar fails; otherwise gives the grammar's value (OR over the terms) and leaves the cursor where the grammar ends |
| EquationParser.Parser.ParseTerm | logic-lens/utils/EquationParser.ts:30-37 | fails exactly when the grammar fails; otherwise gives the grammar's value (AND over the factors, which stop at `+`, `)` or the end) and leaves the cursor where the grammar ends |
| EquationParser.Parser.ParseFactor | logic-lens/utils/EquationParser.ts:39-66 | the errors "Expected )", "Unknown Var" and "Unexpected token" fail exactly as the grammar does; otherwise gives the value of a group, a variable below n or a constant, negated once per quote |
| EquationParser.ParseEquationToTable | logic-lens/utils/EquationParser.ts:5-89 | gives a table exactly when the tokens parse as one expression with no tokens left; the table then has rows 0..2^n-1, each 1 exactly where the equation is true |
| RoundTrip.TermOfCube | logic-lens/utils/EquationParser.ts:30-37 | a printed product parses as one term whose value is whether the cube matches the row |
| RoundTrip.ExprJoin | logic-lens/utils/EquationParser.ts:20-28 | products joined with `+` parse as one expression whose value is whether some cube matches |
| RoundTrip.TokenizeJoin | logic-lens/utils/EquationParser.ts:7-13 | tokenizing products joined with " + " gives them joined with "+" |
| RoundTrip.SortCubesTexts | logic-lens/utils/BooleanSimplifier.ts:80 | sorting the printed products is printing a permutation of the cubes |
| RoundTrip.AnyMatchPermutation | logic-lens/utils/BooleanSimplifier.ts:80 | the order of the terms does not change their sum |
| RoundTrip.EvalJoinedTerms | logic-lens/utils/BooleanSimplifier.ts:71-80 | the sorted, joined products evaluate on every row to whether some cube matches |
| RoundTrip.EvalConstant | logic-lens/utils/BooleanSimplifier.ts:67-69 | "0" and "1" parse to the constants |
| RoundTrip.FormatParses | logic-lens/utils/BooleanSimplifier.ts:63-81 | the printed equation of a table evaluates, on every row below 2^n, to whether that row is true |
| RoundTrip.TwoWayBinding | logic-lens/app/how-it-works/page.tsx:180-203 | parsing the equation printed for a table always succeeds and gives back the same table on the rows 0..2^n-1 whose values are 0 or 1 |
| CircuitGenerator.NeedsInverterIff | logic-lens/utils/CircuitGenerator.ts:55-58 | a variable needs an inverter exactly when some term has the target bit there; the target bit is 1 in the dualized NOR basis and 0 otherwise |
| CircuitGenerator.InputNodes | logic-lens/utils/CircuitGenerator.ts:22-33 | variable k becomes input node k + 1, in order |
| CircuitGenerator.InverterStageKeys | logic-lens/utils/CircuitGenerator.ts:54-85 | the inverter record has an entry exactly for the variables that need an inverter |
| CircuitGenerator.InverterStageSourced | logic-lens/utils/CircuitGenerator.ts:130-136 | every literal read through an inverter finds one in the record |
| CircuitGenerator.LitSourcesLength | logic-lens/utils/CircuitGenerator.ts:130-144 | a gate gets one wire per literal of its term |
| CircuitGenerator.LitSourceValue | logic-lens/utils/CircuitGenerator.ts:130-136 | the wire of a literal carries whether the bit agrees with the input; in the dualized NOR first stage it carries the opposite |
| CircuitGenerator.DirectValue | logic-lens/utils/CircuitGenerator.ts:99-109 | a term that becomes a direct wire carries whether the term matches |
| CircuitGenerator.GateValue | logic-lens/utils/CircuitGenerator.ts:111-144 | an AND gate, or a NOR gate over dualized inputs, computes whether its term matches; a NAND gate computes the negation |
| CircuitGenerator.SingleNandDirect | logic-lens/utils/CircuitGenerator.ts:160-168 | a single NAND term that gets no fixer has one literal, so it is a direct wire |
| CircuitGenerator.FinalValue | logic-lens/utils/CircuitGenerator.ts:184-205 | the final OR gate, or a NAND over negated terms, computes the sum of the terms; a NOR gate computes its negation |
| CircuitGenerator.CombineSourcesOne | logic-lens/utils/CircuitGenerator.ts:160-182 | a single term's signal goes to the output, through the fixer exactly when there is one |
| CircuitGenerator.CombineSourcesMany | logic-lens/utils/CircuitGenerator.ts:184-220 | several term signals go, in order, into the final gate, which feeds the output, through the NOR fixer exactly when there is one |
| CircuitGenerator.CombineOne | logic-lens/utils/CircuitGenerator.ts:159-182 | with one term, the output is whether the term matches |
| CircuitGenerator.CombineMany | logic-lens/utils/CircuitGenerator.ts:184-220 | with several terms, the output is whether some term matches |
| CircuitGenerator.GatedGraph | logic-lens/utils/CircuitGenerator.ts:51-145 | after the inverter and term phases, the graph is forward and numbered in order, has no output yet, and each term signal is its literal's input or inverter, or its own gate wired from its literals |
| CircuitGenerator.BuildForward | logic-lens/utils/CircuitGenerator.ts:7-223 | node ids run 1, 2, ... in creation order; every wire joins existing nodes and runs forward, except that wires into the output may come from the later fixer or final gate |
| CircuitGenerator.BuildComputes | logic-lens/utils/CircuitGenerator.ts:7-223 | in every basis and on every assignment, the output of the graph is 1 exactly when some term matches |
| CircuitShape.CombineCounts | logic-lens/utils/CircuitGenerator.ts:147-220 | the final phase adds one output, a final gate exactly when there are several terms, and a fixer exactly when the basis needs one, and no node of the earlier kinds |
| CircuitShape.GatedIds | logic-lens/utils/CircuitGenerator.ts:51-145 | after the inverter and term phases, the inputs are nodes 1..n, each variable in the record has exactly its one inverter, and each term that is not a direct wire has exactly its one gate |
| CircuitShape.LitSourcesKinds | logic-lens/utils/CircuitGenerator.ts:130-144 | every wire into a term gate comes from the input of a literal, or from the inverter of a literal whose bit is the target bit |
| CircuitShape.BuildInputs | logic-lens/utils/CircuitGenerator.ts:22-33 | in every case the inputs are the first n nodes, variable k with id k + 1, and there are no other inputs |
| CircuitShape.BuildInverters | logic-lens/utils/CircuitGenerator.ts:51-85 | inverters are shared: a variable has one inverter exactly when the general case runs and some term has the target bit there, and none otherwise; it is a gate of the basis with one wire in, from its input |
| CircuitShape.BuildTermGates | logic-lens/utils/CircuitGenerator.ts:87-145 | a term has its own gate exactly when the general case runs and the term is not a direct wire; the gate is of the basis and has one wire per literal, each from that literal's input or inverter |
| CircuitShape.BuildCombining | logic-lens/utils/CircuitGenerator.ts:147-220 | there is exactly one output with one wire in; a final gate of the basis with one wire per term exactly when there are several terms; and a fixer with one wire in exactly when a single NAND term has two or more literals or several terms meet in NOR |
| CircuitShape.BuildConstant | logic-lens/utils/CircuitGenerator.ts:35-49 | with no terms, or one all-dash term, the graph is the inputs and one output with no wires, and the output is constantly 0, respectively 1 |
| CircuitSynthesis.SomeHasBit | logic-lens/utils/CircuitGenerator.ts:58 | true exactly when some term has the given bit at position i |
| CircuitSynthesis.CountLiterals | logic-lens/utils/CircuitGenerator.ts:91-92 | counts the non-dash positions of the term |
| CircuitSynthesis.EveryDash | logic-lens/utils/CircuitGenerator.ts:41 | true exactly when the term is all dashes |
| CircuitSynthesis.FindLiteral | logic-lens/utils/CircuitGenerator.ts:103 | the first non-dash position, or -1 when there is none |
| CircuitSynthesis.PlaceInputs | logic-lens/utils/CircuitGenerator.ts:22-33 | pushes input k with id k + 1 and records its id; the counter ends one past the last node |
| CircuitSynthesis.PlaceInverters | logic-lens/utils/CircuitGenerator.ts:51-85 | the loop over the variables builds exactly the inverters, wires and record of the inverter phase |
| CircuitSynthesis.DirectSignal | logic-lens/utils/CircuitGenerator.ts:99-109 | a direct term's signal is its literal's inverter when the bit is 0, and its input otherwise |
| CircuitSynthesis.WireGate | logic-lens/utils/CircuitGenerator.ts:130-144 | appends one wire per literal into the gate, in position order, each from that literal's input or inverter |
| CircuitSynthesis.GateTerm | logic-lens/utils/CircuitGenerator.ts:90-145 | handles one term as the term phase specifies: a direct wire, or a new gate with its wires |
| CircuitSynthesis.PlaceTermGates | logic-lens/utils/CircuitGenerator.ts:87-145 | the loop over the terms builds exactly the gates, wires and signal list of the term phase |
| CircuitSynthesis.CombineTerms | logic-lens/utils/CircuitGenerator.ts:147-220 | builds exactly the output, final gate, fixer and wires of the final phase |
| CircuitSynthesis.Synthesize | logic-lens/utils/CircuitGenerator.ts:13-222 | with the id counter and lists, builds exactly the specified graph, including both constant cases |
| CircuitSynthesis.GenerateCircuit | logic-lens/utils/CircuitGenerator.ts:7-223 | the graph for a truth table is the stage-by-stage graph `Build` of a duplicate-free listing of exactly the prime implicants; it is well formed, and on every row below 2^n its output is 1 exactly when the row is true |

## Left out

- SchematicGenerator, the pages and the components (layout, rendering, state) are not
  part of this model. The two-way binding is modelled only as the composition of the
  formatter and the parser.
- Node positions, styles, labels, edge ids and colours are not modelled. A node records
  its id and its kind; the kind says which input or term it belongs to and which gate of
  the basis it is. The string ids `"1"`, `"2"`, ... are modelled as the numbers 1, 2, ....
- The sort at BooleanSimplifier.ts line 26 is not modelled. It only changes the order in
  which pairs are visited and cubes are inserted; the merge relation is symmetric, so
  the set of cubes found is the same. BooleanSimplifier.PrimeImplicants: states the set
  of primes, without duplicates, but not the order in which the source lists them.
  CircuitSynthesis.GenerateCircuit receives the primes in the model's order, so its
  term-gate ids and wire order follow that order rather than the source's.
- SopFormat.SimplifiedEquation: `localeCompare` is modelled as comparison by character
  code. For the strings the formatter produces (upper-case letters and `'`), the locale
  order is expected to agree, but the model does not establish that.
- EquationParser.UpperCase: `toUpperCase` is modelled on the ASCII letters only. Other
  letters are dropped by the allow-list afterwards, except those whose upper case
  contains ASCII letters (for example ß to SS, ﬁ to FI, ı to I, ſ to S); the source
  keeps those letters and the model drops them.
- EquationParser.StripWhitespace: `\s` is modelled by the listed space, line-break and
  Unicode space characters.
- The exception control flow of the parser (`throw` and `catch`) is modelled as a
  `None` result.
- Truth tables are maps from natural numbers. The source's record keys are never
  negative, so negative keys are not represented.
- Printing letters assumes at most 26 variables (A to Z); the formatter's members
  require it. The app offers 1 to 5 inputs (app/page.tsx lines 97-103).
- The simulation semantics of a graph (`Circuits.NodeValue`) is this model's own reading
  of the node kinds. The source only draws the graph.
