# Verification of the rmux command line and release tooling

rmux is a terminal multiplexer. This project models, in Dafny, the parts of its repository whose correctness
is least evident from reading the code, and proves what they are for:

- **Command lines** (`Getopt`, `ArgvNormalize`, `ArgvCollapse`, `ArgvDelimit`). Before a command line reaches
  its parser, clusters of short flags are split, repeated `-t` options of `new-window` are collapsed, and a
  `--` is put before the first operand. The reference is the POSIX reading of a command line (section 12.2 of
  POSIX.1-2017, Utility Syntax Guidelines). The theorems say when each rewriting keeps that reading.
- **Benchmark statistics** (`RankSum`, `RankVariance`, `Welch`). The rank-sum loop is proved to compute the pairwise
  statistic, its variance to be the sampling variance of the midranks, and the bounds of the variance and of the
  degrees of freedom are proved over the reals.
- **TOML** (`TomlText`, `TomlValue`, `TomlDocument`, `TomlRun`, `TomlPaths`, `TomlLoad`, `TomlCrash`, `TomlScalar`,
  `TomlSyntax`, `TomlGrammar`, `TomlMeaning`, `TomlRefine`, `TomlSpec`, `TomlRender`, `TomlParser`). The reader is a class
  that updates a position and objects in place, proved against a recursive description. That description reads
  exactly the texts of a grammar of trees with their spelling and layout, as what the trees mean; and the objects
  refine statements on nested tables. So the whole reader is specified without either: `TomlSpec.LoadsIff`.
- **Crate publishing** (`TextOrder`, `CrateOrder`, `CrateSet`). The layered sort fails exactly on cycles of the packages'
  dependencies, and every manifest written from it is accepted by the reader of manifests.
- **Codecs** (`ShellQuote`, `PolicyStream`). Shell quoting against POSIX tokenisation (sections 2.2.1, 2.2.2 and
  2.3 of the POSIX.1-2017 Shell Command Language), and unique decodability of the policy digest's input.
- **Release protocol** (`Release`, `ReleaseSummary`, `ReleaseRequest`, `ReleaseRun`, `ReleaseProgress`). Plans,
  requests, results, envelopes, references and two-phase summaries as documents; every run of the release tools as a sequence of
  actions on the documents issued so far. Safety is proved of all runs, and which plans can be released to the
  end is decided exactly.

Digests of release documents are constructors over the documents, so equal digests mean equal documents, and
times are numbers. Ranks and scores are kept doubled so that they are integers. Python exceptions and Rust
errors are `Err` values.

Some promises hold only under a condition. Each failure has its inputs and its condition:

- splitting clusters keeps the reading exactly when the scans stay in step (`ArgvNormalize.NormalizeKeepsReading`,
  with the failing family `ClusterAsLongValueIsRewritten`);
- the collapse of repeats pairs what getopt pairs exactly on clear command lines (`ArgvCollapse.ScanIsReadingIffClear`,
  `CollapseCanLoseAValue`);
- a TOML header fails with something else than a decode error exactly at a dead end (`TomlRun.CrashIffDeadEnd`,
  `PlainArrayAtRememberedPath`), which needs an array assigned over an array of tables
  (`TomlPaths.CleanDocumentNeverCrashes`), and a text exactly when a statement does or an escape that is read
  names no code point (`TomlCrash.CrashIff`);
- the release of a plan can be completed exactly when no channel is disarmed
  (`ReleaseProgress.CompletesIffNoneDisarmed`);
- rmux.io is last exactly when the results of the pre-site summary were verified by the time of the rmux.io
  request (`ReleaseProgress.SiteIsLastIff`), and for every plan that can be completed some run breaks the order
  (`SiteCanComeFirst`);
- a retry chain mutates once exactly when every new mutating result goes to a request whose chain has none
  (`ReleaseRun.ChainMutatesOnce`), and the tools run on without that (`ReleaseProgress.ChainCanMutateTwice`);
- a retry follows an unmutated result when the retry tool made it (`ReleaseRun.RetryFollowsNoMutation`), and
  need not follow any result otherwise (`ReleaseProgress.DirectRetryNeedsNoResult`).

`dafny verify dfyconfig.toml` checks the whole project.

## Model

| member | source | states |
|---|---|---|
| `ArgvNormalize.NormalizeCompactShortValueToken` | src/cli_args.rs:800-833 | the character loop splits a cluster into its flags and at most one value, or leaves it, as the recursive splitting does |
| `ArgvNormalize.NormalizeOptions` | src/cli_args.rs:750-788 | the main loop with its `passthrough` and `expect_next_value` flags computes the recursive rewriting, options and untouched tail apart |
| `ArgvNormalize.PartsShape` | src/cli_args.rs:814-832 | a splittable cluster never stops the getopt reading, and asks for the next token exactly when the reading does |
| `ArgvNormalize.PartsKeepFlags` | src/cli_args.rs:814-832 | the parts of a split cluster, followed by anything, read like the cluster followed by the same |
| `ArgvNormalize.CompactIffRead` | src/cli_args.rs:800-833 | a cluster is left unsplit exactly when getopt cannot read it |
| `ArgvNormalize.EmitKeepsToken` | src/cli_args.rs:777-787 | every rewritten option token contributes to the reading what the original token does, whatever follows |
| `ArgvNormalize.NormalizeKeepsReading` | src/cli_args.rs:720-794 | for every argv: the getopt reading (events, operands, error) is kept if and only if there are no value flags or the two scans stay in step, a condition on the tokens of the input alone |
| `ArgvNormalize.ReadingIffInStep` | src/cli_args.rs:755-788 | the same equivalence for the rewriting loop, by recursion along the tokens |
| `ArgvNormalize.ReadingIffMisread` | src/cli_args.rs:755-788 | the equivalence where the rewriting takes a long option's value for an option token |
| `ArgvNormalize.ReadingIffCopied` | src/cli_args.rs:760-764 | the equivalence where the rewriting copies as a value a token that getopt reads as an option |
| `ArgvNormalize.UntouchedIff` | src/cli_args.rs:755-788 | a command line is rewritten to itself if and only if the scan meets no splittable cluster |
| `ArgvNormalize.ShortFlagsAlwaysInStep` | src/cli_args.rs:720-794 | with short options only (no long option taking a separate value) every argv keeps its reading |
| `ArgvNormalize.ClusterAsLongValueIsRewritten` | src/cli_args.rs:720-794 | the failing family: a separate value of a long option that is itself a splittable cluster changes the reading, for every such command line |
| `ArgvNormalize.NormalizeIsIdempotent` | src/cli_args.rs:720-794 | rewriting twice is rewriting once, for every argv |
| `ArgvCollapse.CollapseRepeatedShortValues` | src/cli_args.rs:835-874 | the index loops compute exactly: keep the last pair of each repeat flag and every other token |
| `ArgvCollapse.Occurrences` | src/cli_args.rs:843-855 | the scan records the positions of every pair of each repeat flag, in order |
| `ArgvCollapse.DropIndexes` | src/cli_args.rs:857-867 | the dropped indexes are those of all pairs that are not the last of their flag |
| `ArgvCollapse.WithoutIndexes` | src/cli_args.rs:869-873 | the filter keeps the tokens outside the dropped indexes, in order |
| `ArgvCollapse.CollapseKeepsLastPairs` | src/cli_args.rs:835-874 | scanning the result finds exactly the last value of each repeat flag and the same other tokens in the same order |
| `ArgvCollapse.SegsFlat` | src/cli_args.rs:843-855 | tokens built from a segmentation are scanned back into it, so removals never create new pairs |
| `ArgvCollapse.FlatSegs` | src/cli_args.rs:843-855 | the scan loses nothing: its segments spell the input |
| `ArgvCollapse.ScanIsReadingIffClear` | src/cli_args.rs:835-874 | the collapse scan pairs what getopt pairs if and only if no value of another option is spelled like a repeat flag that has a follower, and no operand but the last token is a repeat flag |
| `ArgvCollapse.NonePairedIff` | src/cli_args.rs:843-855 | the scan finds no pair if and only if no token but the last is an exact repeat flag |
| `ArgvCollapse.ClearLineIff` | src/cli_args.rs:790-791 | the same condition stated on the raw command line, clusters and attached values included, is equivalent to it on the split one |
| `ArgvCollapse.PairIsRead` | src/cli_args.rs:843-855 | on such input every pair the scan finds is a value event of the reading |
| `ArgvCollapse.CollapseKeepsReading` | src/cli_args.rs:835-874 | on such input the last-wins reading is unchanged, whatever operands follow |
| `ArgvCollapse.CollapseCanLoseAValue` | src/cli_args.rs:835-874 | a concrete command line outside that condition on which collapsing loses a value |
| `ArgvCollapse.NormalizeAttachedShortValues` | src/cli_args.rs:720-794 | the whole function: splitting, collapsing the options, then the untouched tail |
| `ArgvCollapse.NormalizeAllKeepsReading` | src/cli_args.rs:720-794 | splitting and collapsing together keep the last-wins reading of every command line whose scans stay in step and whose own tokens, attached values included, hold no value spelled like a followed repeat flag |
| `ArgvDelimit.DelimitOptionsBeforePositionals` | src/cli_args.rs:593-697 | the loop with `expected_value_flag` and `first_positional` computes the recursive location of the first operand, the errors and the insertion |
| `ArgvDelimit.See` | src/cli_args.rs:634-662 | one token: refused, fine, or expecting the next token as its value |
| `ArgvDelimit.Sum` | src/cli_args.rs:670-677 | the fold of the positionals' limits saturates at the machine word |
| `ArgvDelimit.PositionalLimit` | src/cli_args.rs:670-677 | the limit fits the machine word and is zero exactly when every positional allows none |
| `ArgvDelimit.Locate` | src/cli_args.rs:623-663 | a located operand is an operand token inside the arguments |
| `ArgvDelimit.TokenSeenAsRead` | src/cli_args.rs:634-662 | the scan sees a token the way getopt reads it, and refuses only what getopt cannot read |
| `ArgvDelimit.PermissiveIsStrict` | src/cli_args.rs:623-694 | with the separator at the located place the parser that accepts options after operands reads what strict getopt reads |
| `ArgvDelimit.DelimitKeepsReading` | src/cli_args.rs:593-697 | with a positional declared, every success makes the permissive parser read the strict reading of the input |
| `ArgvDelimit.DelimitOnlyInserts` | src/cli_args.rs:669-696 | the output is the input, or the input with one `--` right before an operand |
| `ArgvDelimit.LocateAgainstReading` | src/cli_args.rs:623-667 | the scan fails only where the strict reading fails, always on a missing value, and otherwise finds the strict operands |
| `ArgvDelimit.DelimitErrors` | src/cli_args.rs:636-688 | which error is returned when, in terms of the strict reading; too many arguments exactly when the operands exceed the limit |
| `ArgvDelimit.DelimitOutcome` | src/cli_args.rs:593-697 | the whole outcome where positionals allow hyphens, for every command line, in terms of the strict reading: its error; or one `--` before its operands, or that they are too many, unless a separator stands there already; or the arguments as they are |
| `ArgvDelimit.UnknownFlagIff` | src/cli_args.rs:634-688 | there, an unknown flag or long name is reported, by its name, if and only if it is what stops the strict reading, and a missing value likewise |
| `ArgvDelimit.UnknownFlagsSkipped` | src/cli_args.rs:637-656 | where no positional allows hyphens, the scan finds what it would find if every flag and name of the command line were declared |
| `ArgvDelimit.NoUnknownErrors` | src/cli_args.rs:637-656 | and there neither error of an unknown option is ever returned |
| `ArgvDelimit.LocateExactly` | src/cli_args.rs:623-663 | the located operand is where the strict operands start, unless they stand behind a separator |
| `ArgvDelimit.LimitsAddUp` | src/cli_args.rs:670-677 | the limits of all positionals add up, saturating, and one positional counts its own maximum |
| `ArgvDelimit.NameIsBeforeEquals` | src/cli_args.rs:635-636 | a long option's name is what stands before its first equals sign, or all of it |
| `ArgvDelimit.NoPositionalsStillRefused` | src/cli_args.rs:678-680 | without positionals the arguments are returned as they are, and the permissive parser still sees an operand or an error |
| `ArgvDelimit.RewrittenCommandLineReading` | src/cli_args.rs:581-589 | splitting and then delimiting, for a command without repeat flags: the permissive parser reads the strict reading of the raw command line |
| `ArgvDelimit.RewrittenLastWinsReading` | src/cli_args.rs:581-589 | splitting, collapsing and delimiting: the permissive parser's last-wins reading is getopt's last-wins reading of the raw command line |
| `RankSum.MannWhitney` | scripts/perf-diff.py:170-205 | `u_base` and `u_current` are the pairwise statistics of the two samples (in halves), and the p-value is that of the pair counts |
| `RankSum.RankLoop` | scripts/perf-diff.py:178-191 | the tie-averaged loop over a sorted pool sums the midranks of the base values and the tie terms |
| `RankSum.BlockEnd` | scripts/perf-diff.py:182-184 | the inner loop stops at the first value different from the run |
| `RankSum.BaseMembers` | scripts/perf-diff.py:188-190 | the group loop adds the average rank once per base member |
| `RankSum.BlockRank` | scripts/perf-diff.py:185-186 | the average rank of a block of a sorted pool is the midrank of its value in the pool |
| `RankSum.TotalSort` | scripts/perf-diff.py:176-176 | sorting changes no sum over the samples |
| `RankSum.PoolTotals` | scripts/perf-diff.py:173-193 | the base rank sum is the pairwise score plus n(n+1)/2 and the tie term is that of the unsorted pool |
| `RankSum.PairScoresAddUp` | scripts/perf-diff.py:193-194 | the two statistics add up to n1*n2 and both lie between 0 and n1*n2 |
| `RankSum.TieTermBound` | scripts/perf-diff.py:187-187 | the tie term is at most n(n*n-1), reached exactly by a constant pool |
| `RankSum.VarianceSign` | scripts/perf-diff.py:200-202 | the tie-corrected variance is never negative, and zero exactly when a sample is empty or all values are equal |
| `RankSum.ConstantScore` | scripts/perf-diff.py:193-196 | on a constant pool the statistic is its mean |
| `RankSum.ZeroIsUnreachable` | scripts/perf-diff.py:202-203 | the `0.0` arm is unreachable in exact arithmetic, for all samples |
| `RankSum.PValueIsSymmetric` | scripts/perf-diff.py:193-205 | exchanging baseline and current leaves the p-value |
| `RankVariance.TailMeans` | scripts/perf-diff.py:196-205 | where the p-value is a tail: its deviation is minus half the difference of the two pairwise statistics, and its variance is the sampling variance of the midranks, `n1 n2 / (N (N - 1))` of their squared deviations from the mean |
| `RankVariance.PValueShape` | scripts/perf-diff.py:196-205 | the p-value is one if and only if a sample is empty or the pool is constant, and a two-sided tail of positive variance otherwise |
| `RankVariance.VarianceIsOfRanks` | scripts/perf-diff.py:200-201 | the tie-corrected variance is that sampling variance, for every pool |
| `RankVariance.TiesAndSquares` | scripts/perf-diff.py:182-190 | the tie sum is what the squared rank deviations lack to those of an untied pool |
| `RankVariance.PoolSquares` | scripts/perf-diff.py:178-191 | three times the squared rank deviations and the squared multiplicities make up the pool's size cubed |
| `Welch.WelchStatistic` | scripts/perf-diff.py:146-167 | when it is refused, identical, separated or finite, if and only if conditions on the samples; otherwise mean shift, denominator and degrees of freedom within min(n1,n2)-1 and n1+n2-2 |
| `Welch.ScaledSign` | scripts/perf-diff.py:151-154 | a scaled variance is never negative and zero exactly on a constant sample |
| `Welch.DfUpper` | scripts/perf-diff.py:166-166 | the upper bound, reached exactly when the two ratios agree |
| `Welch.DfLower` | scripts/perf-diff.py:166-166 | the lower bound |
| `Welch.DfBounds` | scripts/perf-diff.py:161-166 | both bounds on the quotient, and when the upper one is reached |
| `Welch.SkippedTerms` | scripts/perf-diff.py:161-166 | leaving out zero terms does not change the denominator, which is positive |
| `Welch.BothConstant` | scripts/perf-diff.py:156-159 | the two early returns distinguish a constant pool from two different constants |
| `Welch.MeanBalances` | scripts/perf-diff.py:150-151 | the deviations from the mean sum to zero |
| `Welch.ScaledIsOfPairs` | scripts/perf-diff.py:152-155 | `2 n n (n - 1)` times the scaled variance is the sum of the squared differences of all pairs |
| `Welch.DfSolves` | scripts/perf-diff.py:162-167 | the degrees of freedom solve the Welch-Satterthwaite equation |
| `ShellQuote.QuotingRoundTrip` | src/cli.rs:575-589 | for every vector of length other than one, POSIX tokenisation and quote removal return exactly the vector if no token holds a NUL, and nothing otherwise |
| `ShellQuote.LoneTokenRoundTrip` | src/cli.rs:576-578 | a single token is passed unquoted: it survives tokenisation if and only if it is nonempty and every character is an ordinary word character in its place (`#` not first, `~` neither first nor after `=` or `:`) |
| `ShellQuote.LiteralIffOrdinary` | src/cli.rs:576-578 | a scan takes all characters of a token into one word if and only if each is ordinary in its place |
| `ShellQuote.ScanToken` | src/cli.rs:587-589 | one quoted token is scanned back as that word, whatever follows |
| `ShellQuote.ScanJoined` | src/cli.rs:580-584 | tokens joined by spaces are scanned back one by one, empty ones included |
| `ShellQuote.ScanShrinks` | src/cli.rs:575-578 | tokenising yields fewer characters than it reads unless all of them are word characters |
| `PolicyStream.BigEndianWeighs` | scripts/release/candidate_manifest_evidence.py:167-168 | the bytes of a word, weighed by powers of 256 from the first down, sum to its number |
| `PolicyStream.FieldTaken` | scripts/release/candidate_manifest_evidence.py:167-168 | a length-delimited field is taken off the front of any bytes |
| `PolicyStream.RecordTaken` | scripts/release/candidate_manifest_evidence.py:222-225 | and so are the six fields of a record: path, mode, kind, blob, size, digest |
| `PolicyStream.StreamDecodes` | scripts/release/candidate_manifest_evidence.py:197-225 | for every list of records, the stream is decoded back into it |
| `PolicyStream.PreImageDecodes` | scripts/release/candidate_manifest_evidence.py:193-225 | after the 21 bytes of the domain, spelled out |
| `PolicyStream.PreImageInjective` | scripts/release/candidate_manifest_evidence.py:193-225 | so two record lists with the same hashed bytes are the same list |
| `PolicyStream.HashRecords` | scripts/release/candidate_manifest_evidence.py:193-227 | the loop succeeds exactly on canonical records and leaves the stream, the paths and the last contract record |
| `PolicyStream.IsAscending` | scripts/release/candidate_manifest_evidence.py:228-229 | sorted and unique is strictly ascending neighbours |
| `PolicyStream.ValidatePolicy` | scripts/release/candidate_manifest_evidence.py:171-236 | accepts exactly the reports that meet every condition, with the one contract record |
| `PolicyStream.DigestBindsRecords` | scripts/release/candidate_manifest_evidence.py:228-236 | two accepted reports with one digest have the same records, unless the hash collides on their two different pre-images |
| `CrateOrder.DependencyOrder` | scripts/release/canonical-crate-set.py:72-98 | for packages of distinct names, in terms of their dependencies that are not for development, have a path and are on a listed package: fails if and only if some closed walk follows them; otherwise lists every package once, after those it depends on, by the length of its longest chain and then by name, with each package's dependencies sorted |
| `CrateOrder.WorkspaceDependencies` | scripts/release/canonical-crate-set.py:75-86 | each package's list holds exactly the names it depends on in that sense, ascending |
| `CrateOrder.Layers` | scripts/release/canonical-crate-set.py:87-98 | the loop over the mutable graph computes the recursive layering, and terminates |
| `CrateOrder.DropLayer` | scripts/release/canonical-crate-set.py:94-97 | the two inner loops remove a layer from the keys and from every set |
| `CrateOrder.Sorted` | scripts/release/canonical-crate-set.py:86-90 | strictly ascending with exactly the members of the set |
| `CrateOrder.GraphIgnoresListing` | scripts/release/canonical-crate-set.py:75-86 | the graph depends on the set of packages, not on their listing |
| `CrateOrder.LayersAreTopological` | scripts/release/canonical-crate-set.py:89-98 | a computed order is a permutation of the names with every dependency before its dependants |
| `CrateOrder.TopologicalIsAcyclic` | scripts/release/canonical-crate-set.py:91-92 | a graph with such an order has no cycle |
| `CrateOrder.StuckIsCyclic` | scripts/release/canonical-crate-set.py:90-92 | a nonempty closed graph without a ready node has a cycle |
| `CrateOrder.FailureIsCyclic` | scripts/release/canonical-crate-set.py:89-92 | a failure of the layering means a cycle, self-loops included |
| `CrateOrder.OrderOrCycle` | scripts/release/canonical-crate-set.py:72-98 | fails if and only if the graph is cyclic, otherwise orders it |
| `CrateOrder.PublishOrder` | scripts/release/canonical-crate-set.py:72-98 | the same for the packages of a workspace, with the same order for every listing |
| `CrateOrder.PackagesInOrder` | scripts/release/canonical-crate-set.py:72-98 | the order and the cycle condition on the packages themselves |
| `CrateOrder.OthersDoNotCount` | scripts/release/canonical-crate-set.py:79-85 | development dependencies, those without a path and those on other packages change nothing |
| `CrateOrder.EdgeIff` | scripts/release/canonical-crate-set.py:79-85 | the graph has an edge if and only if one package depends on the other in that sense |
| `CrateOrder.LayersByHeight` | scripts/release/canonical-crate-set.py:89-98 | in every computed order crates stand by the length of the longest walk from them, and by name where it is equal |
| `TextOrder.LessIff` | scripts/release/canonical-crate-set.py:86-90 | a name sorts before another if and only if it is a proper prefix of it, or has the lower character where they first differ |
| `CrateSet.BuildManifest` | scripts/release/canonical-crate-set.py:136-178 | succeeds exactly when the packaged files are the expected ones, each nonempty; manifest and payloads are fixed by the order |
| `CrateSet.Validate` | scripts/release/crate_package_set.py:69-146 | accepts exactly the manifests whose entries are canonical, whose files match and whose order is a permutation with dependencies first |
| `CrateSet.IndexEntries` | scripts/release/crate_package_set.py:84-121 | the entry loop accepts exactly distinct canonical entries and collects their files |
| `CrateSet.ReplayOrder` | scripts/release/crate_package_set.py:136-143 | the replay accepts an order exactly when every dependency comes earlier |
| `CrateSet.SameLength` | scripts/release/crate_package_set.py:144-145 | the completeness check after the loop never fails |
| `CrateSet.AcceptedIsAcyclic` | scripts/release/crate_package_set.py:122-146 | no accepted manifest declares a dependency cycle |
| `CrateSet.TopologicalIffListed` | scripts/release/crate_package_set.py:122-146 | the order that is accepted, on the entries: each name once, and every dependency of an entry before it |
| `CrateSet.WrittenGraph` | scripts/release/canonical-crate-set.py:149-165 | the entries written along an order declare exactly the workspace graph |
| `CrateSet.WrittenFiles` | scripts/release/canonical-crate-set.py:149-178 | the files written are the files the checker expects |
| `CrateSet.WrittenIsAccepted` | scripts/release/crate_package_set.py:69-146 | every manifest built from a computed order is accepted |
| `TomlText.SkipBlanks` | scripts/toml_reader.py:106-115 | stops at the end or before a character that is neither blank nor a comment |
| `TomlText.KeyPath` | scripts/toml_reader.py:146-154 | a key path that is read is nonempty and consumes text |
| `TomlText.BasicString` | scripts/toml_reader.py:158-192 | a basic string that is read consumes text |
| `TomlText.EscapeCrashesIff` | scripts/toml_reader.py:182-190 | an escape fails with something else than a decode error if and only if its eight digits exceed the last code point |
| `TomlText.LiteralString` | scripts/toml_reader.py:194-205 | a literal string that is read consumes text |
| `TomlValue.ReadValue` | scripts/toml_reader.py:209-242 | every value that is read consumes text and is well formed: tables have distinct keys |
| `TomlValue.ReadItems` | scripts/toml_reader.py:244-261 | array items consume text and are well formed |
| `TomlValue.ReadPairs` | scripts/toml_reader.py:263-285 | inline pairs consume text and keep the table well formed |
| `TomlValue.Assign` | scripts/toml_reader.py:289-303 | assigning into an inline table keeps distinct keys |
| `TomlScalar.ScalarIff` | scripts/toml_reader.py:228-242 | a token is a scalar value if and only if it is written as a truth value, a decimal or prefixed integer, or a float, of that value |
| `TomlScalar.PrefixedNumber` | scripts/toml_reader.py:235-237 | every number in binary, octal or hexadecimal, digits of either case and any underscores, is read as itself |
| `TomlScalar.DecimalNumber` | scripts/toml_reader.py:238-239 | every decimal, signed or not, with any underscores, is read as itself |
| `TomlScalar.ScalarOfFloat` | scripts/toml_reader.py:240-241 | every float with sign, fraction and exponent is kept as its text less the underscores |
| `TomlScalar.FormFrom` | scripts/toml_reader.py:228-242 | nothing else is accepted: every accepted token names its form |
| `TomlScalar.NumeralValue` | scripts/toml_reader.py:236-239 | the digits of a number in a base are worth the number |
| `TomlSyntax.TextRead` | scripts/toml_reader.py:361-374 | for every document, with bare, basic or literal keys joined by dots, plain and array headers, values, and any spaces, blank lines and comments: its text is read as the list of its statements, in order, up to the first without a meaning |
| `TomlSyntax.BareRead` | scripts/toml_reader.py:140-144 | every nonempty string of bare characters, before the end or another character, is read as itself |
| `TomlSyntax.NameRead` | scripts/toml_reader.py:134-144 | so is every quoted or literal key, escapes included, unless it is empty before another quote |
| `TomlSyntax.DottedRead` | scripts/toml_reader.py:146-154 | a dotted key, spaces around its dots, is read as its parts in order |
| `TomlSyntax.NodeRead` | scripts/toml_reader.py:209-285 | every value tree, before a delimiter, is read as what it means and up to its end, or refused with the fault of its first part without a meaning |
| `TomlSyntax.ItemsRead` | scripts/toml_reader.py:244-261 | array items, with line ends and comments between them and an optional last comma, are read in order |
| `TomlSyntax.PairsRead` | scripts/toml_reader.py:263-285 | the pairs of an inline table, dotted keys included, are assigned in order |
| `TomlSyntax.LineRead` | scripts/toml_reader.py:346-374 | every statement, before the end of its line, is read as what it means |
| `TomlSyntax.MarginEnds` | scripts/toml_reader.py:122-130 | spaces and a comment up to the line end or the end of the text end a statement |
| `TomlGrammar.ReadIff` | scripts/toml_reader.py:361-374 | a text is read to its end, as these statements, if and only if it is a document that means them |
| `TomlGrammar.TextFrom` | scripts/toml_reader.py:361-374 | every text read to its end names the document it is, spelling and layout included |
| `TomlGrammar.NodeFrom` | scripts/toml_reader.py:209-285 | and every value that is read the tree it is |
| `TomlGrammar.DottedFrom` | scripts/toml_reader.py:146-154 | and every dotted key |
| `TomlGrammar.MarginFrom` | scripts/toml_reader.py:122-130 | and every end of a statement |
| `TomlRender.ReadRender` | scripts/toml_reader.py:158-285 | for every value of strings, integers, booleans, arrays and inline tables with distinct keys, reading its rendering before a delimiter gives the value and stops exactly at the end of the rendering |
| `TomlRender.TreeMeans` | scripts/toml_reader.py:158-285 | the tree of such a value means the value |
| `TomlRender.LoadsTable` | scripts/toml_reader.py:361-382 | every text that is read as the bindings of a table is loaded as that table, key for key |
| `TomlRender.LoadsRenderedTable` | scripts/toml_reader.py:361-382 | for every table of renderable values, loading its text gives a document that is that table |
| `TomlRender.CharIsCoded` | scripts/toml_reader.py:182-190 | every character can be written by the four or eight hexadecimal digits of its code point |
| `TomlMeaning.EditKeepsFocus` | scripts/toml_reader.py:289-303 | an assignment leaves a table at the path of the last header |
| `TomlMeaning.OpenHasFocus` | scripts/toml_reader.py:305-344 | a header that is accepted has a table at its path, the last element of each array on it |
| `TomlRefine.StatementRefines` | scripts/toml_reader.py:289-344 | every statement, run on the objects through the reference to the current table, does what it means on nested tables, or is refused for the same reason |
| `TomlRefine.RunRefines` | scripts/toml_reader.py:361-374 | and so does every list of statements |
| `TomlRefine.AssignRefines` | scripts/toml_reader.py:289-303 | assigning in place refines assigning in a nested table, the function that inline tables use |
| `TomlRefine.OpenRefines` | scripts/toml_reader.py:305-344 | opening a table in place refines opening it in a nested table: what is created, appended, entered or refused |
| `TomlRefine.EditRefines` | scripts/toml_reader.py:289-303 | what is assigned through the current table changes the whole at the path of the last header and nowhere else |
| `TomlSpec.LoadsIff` | scripts/toml_reader.py:361-382 | the whole reader: a text is loaded as a table if and only if it is some document, in any spelling and layout, whose statements make up that table |
| `TomlSpec.LoadMeans` | scripts/toml_reader.py:361-382 | for every text, loading gives the table that its statements make up, spelled by objects, or their first fault |
| `TomlDocument.InstallIsFresh` | scripts/toml_reader.py:244-303 | storing a value only adds objects that nothing else holds |
| `TomlDocument.InstallHolds` | scripts/toml_reader.py:244-303 | and the stored objects hold the value |
| `TomlRun.AssignKeeps` | scripts/toml_reader.py:289-303 | an accepted assignment keeps the tree, only adds to it, and its value is found at its path |
| `TomlRun.DescendKeeps` | scripts/toml_reader.py:305-318 | walking a header's path keeps the tree and only adds to it |
| `TomlRun.OpenInKeeps` | scripts/toml_reader.py:320-344 | opening the last part keeps the tree, only adds, and makes a reachable table current |
| `TomlRun.ExecKeeps` | scripts/toml_reader.py:289-344 | every accepted statement keeps a sound document sound and only lets it grow |
| `TomlRun.RunGrows` | scripts/toml_reader.py:361-374 | over every accepted run: scalars stay at their address, tables only gain keys, lists only gain trailing elements, the document stays a tree with the current table in it |
| `TomlRun.RunRemembers` | scripts/toml_reader.py:361-374 | a value once assigned is found at the same place with the same contents ever after |
| `TomlRun.HeadersAreOpenedOnce` | scripts/toml_reader.py:333-343 | no accepted run opens a plain header twice, or a plain header for a path opened before as an array of tables |
| `TomlRun.AssignNeverCrashes` | scripts/toml_reader.py:289-303 | an assignment fails only with a decode error |
| `TomlRun.CrashIffDeadEnd` | scripts/toml_reader.py:305-318 | executing a statement fails with something else than a decode error if and only if it is a header that walks into a remembered path whose list has no last table |
| `TomlRun.PlainArrayAtRememberedPath` | scripts/toml_reader.py:312-315 | a concrete run on which that happens |
| `TomlPaths.CleanDocumentNeverCrashes` | scripts/toml_reader.py:289-374 | for every list of statements: if no assignment puts an array at the path of an array-of-tables header, counted from the table it assigns into, executing them ends in a document or a decode error |
| `TomlPaths.PlacedRunNeverCrashes` | scripts/toml_reader.py:361-374 | the same from any document whose objects have paths and whose lists on those paths end in tables |
| `TomlPaths.StatementPlaced` | scripts/toml_reader.py:289-344 | every accepted statement keeps each object at the path its keys spell and the lists of array headers ending in tables |
| `TomlPaths.AssignPlaced` | scripts/toml_reader.py:289-303 | an assignment does, if its value puts no array on such a path |
| `TomlPaths.DescendPlaced` | scripts/toml_reader.py:306-318 | a header's walk arrives at the table of its path and never at a list without a last table |
| `TomlPaths.OpenPlaced` | scripts/toml_reader.py:320-344 | opening a header makes the table at its path current |
| `TomlLoad.ReadHeader` | scripts/toml_reader.py:346-358 | a header that is read has a nonempty path and consumes text |
| `TomlLoad.Load` | scripts/toml_reader.py:361-374 | loading terminates on every text and keeps a runnable document |
| `TomlLoad.LoadIsRun` | scripts/toml_reader.py:361-374 | an accepted text is an accepted run of statements |
| `TomlLoad.LoadedIsSound` | scripts/toml_reader.py:377-382 | every loaded document is a tree |
| `TomlCrash.LoadIsReadThenRun` | scripts/toml_reader.py:361-374 | for every text and document: the reader, which runs each statement before it reads the next, ends as reading everything first and running it afterwards would, result or fault |
| `TomlCrash.CrashIff` | scripts/toml_reader.py:361-382 | for every text: loading fails with something else than a decode error if and only if running the statements read does, or they all run and one of the escapes read names no code point |
| `TomlCrash.ReadingCrashIff` | scripts/toml_reader.py:361-374 | reading a text fails so if and only if one of the escapes read up to its first fault does |
| `TomlCrash.ValueCrashIff` | scripts/toml_reader.py:209-285 | likewise for a value, through nested arrays and inline tables |
| `TomlCrash.KeyCrashIff` | scripts/toml_reader.py:134-154 | likewise for a dotted key |
| `TomlCrash.BodyCrashIff` | scripts/toml_reader.py:162-192 | likewise for a basic string |
| `TomlCrash.CleanTextCrashIff` | scripts/toml_reader.py:361-382 | where no statement assigns an array at the path of an array-of-tables header, such an escape, met after statements that all run, is the only way to fail so |
| `TomlParser.Parser.constructor` | scripts/toml_reader.py:72-78 | an empty document at position zero |
| `TomlParser.Parser.SkipSpaces` | scripts/toml_reader.py:97-99 | in-place position update equals the scanner function; the position never passes the end |
| `TomlParser.Parser.SkipComment` | scripts/toml_reader.py:101-104 | likewise, up to the line feed |
| `TomlParser.Parser.SkipBlanks` | scripts/toml_reader.py:106-115 | likewise, over blanks and comments |
| `TomlParser.Parser.Expect` | scripts/toml_reader.py:117-120 | one character or the fault |
| `TomlParser.Parser.EndOfStatement` | scripts/toml_reader.py:122-130 | end of text, or one line end, or the fault |
| `TomlParser.Parser.ParseKeySegment` | scripts/toml_reader.py:134-144 | quoted or bare key, as the scanner function reads it |
| `TomlParser.Parser.ParseKeyPath` | scripts/toml_reader.py:146-154 | the loop reads the recursive key path |
| `TomlParser.Parser.ParseNextKey` | scripts/toml_reader.py:149-154 | one turn of that loop |
| `TomlParser.Parser.ParseBasicString` | scripts/toml_reader.py:158-192 | the string function |
| `TomlParser.Parser.ParseBasicBody` | scripts/toml_reader.py:162-192 | the character loop reads the recursive body |
| `TomlParser.Parser.ParseChar` | scripts/toml_reader.py:164-192 | one turn of that loop: the closing quote, or one character of the string |
| `TomlParser.Parser.ParseEscape` | scripts/toml_reader.py:174-192 | one escape sequence |
| `TomlParser.Parser.ParseLiteralString` | scripts/toml_reader.py:194-205 | the literal string function |
| `TomlParser.Parser.ParseLiteralBody` | scripts/toml_reader.py:198-205 | the search loop for the closing quote |
| `TomlParser.Parser.ParseValue` | scripts/toml_reader.py:209-226 | the recursive value function, for every text |
| `TomlParser.Parser.ParseArray` | scripts/toml_reader.py:244-261 | the item loop |
| `TomlParser.Parser.ParseItem` | scripts/toml_reader.py:248-261 | one turn of the item loop |
| `TomlParser.Parser.ParseInlineTable` | scripts/toml_reader.py:263-285 | the pair loop |
| `TomlParser.Parser.ParsePair` | scripts/toml_reader.py:271-285 | one turn of the pair loop |
| `TomlParser.Parser.ParseBinding` | scripts/toml_reader.py:272-276 | key, equals sign and value |
| `TomlParser.Parser.Assign` | scripts/toml_reader.py:289-303 | the loop over the stored objects equals the recursive assignment, or fails alike |
| `TomlParser.Parser.Walk` | scripts/toml_reader.py:306-318 | the descent loop equals the recursive descent |
| `TomlParser.Parser.OpenTable` | scripts/toml_reader.py:305-344 | the document after a header equals the statement semantics |
| `TomlParser.Parser.ParseHeader` | scripts/toml_reader.py:346-357 | the header function |
| `TomlParser.Parser.CloseHeader` | scripts/toml_reader.py:351-357 | the closing brackets |
| `TomlParser.Parser.ParseStatement` | scripts/toml_reader.py:366-374 | one statement read, executed and ended |
| `TomlParser.Parser.Parse` | scripts/toml_reader.py:361-374 | the main loop computes the load function of the whole text, result or fault |
| `Release.ExpectedChannelEntries` | scripts/release/downstream_plan.py:51-110 | the channel loop yields the planned entry of every channel in order, or fails exactly when some entry has none |
| `Release.DecisionIff` | scripts/release/downstream_plan.py:61-91 | in every valid plan, which of denied, blocked, disarmed and enabled a channel is, if and only if conditions on policy, opt-in, readiness and authority |
| `Release.EnabledMeans` | scripts/release/downstream_plan.py:85-108 | an enabled entry is allowed or opted in, ready, unblocked and under authority |
| `Release.LetOutMeans` | scripts/release/downstream_plan.py:85-108 | an entry that is neither denied nor blocked is allowed, ready and unblocked, and executes exactly under authority |
| `Release.ExpectedPredicate` | scripts/release/channel-result.py:33-87 | a result predicate that is made validates against its request and carries the given state and times |
| `Release.ExpectedEnvelope` | scripts/release/channel-result.py:90-139 | an envelope that is made validates against a valid predicate and is no older than it |
| `Release.CreateReference` | scripts/release/downstream_result_reference.py:180-265 | a reference that is made validates, from a valid predicate and envelope, and is no older than the envelope |
| `Release.PredicateIff` | scripts/release/channel-result.py:33-87 | a result of a valid request is issued if and only if it happened in time, its state is allowed and its evidence fits |
| `Release.EnvelopeIff` | scripts/release/channel-result.py:90-139 | an envelope of a valid result is issued if and only if the artifact is the result's, artifact and attestation are well formed and the clock has not gone back |
| `Release.ReferenceIff` | scripts/release/downstream_result_reference.py:180-265 | a reference is issued if and only if the two artifacts are the result's and well formed and the clock has not gone back |
| `Release.IssuedVersion` | scripts/release/channel-result.py:48-56 | a result of the release `v` followed by a version carries evidence of that version |
| `Release.EntryTells` | scripts/release/downstream_plan.py:51-110 | what else every valid plan says of a channel: its contract's phase and payload, its policy decision and opt-in, and that rmux.io alone depends on others, on all of them |
| `Release.MutationStateIff` | scripts/release/downstream_result.py:116-136 | a result names a remote request if and only if it started a mutation or is an exact no-op, and which states start one |
| `Release.PublicNeedsAuthority` | scripts/release/downstream_result_reference.py:100-144 | a public reference had execution authority; without downstream authority there is no mutation, no remote identity and nothing public |
| `Release.KeyDetermines` | scripts/release/downstream_channels.py:491-528 | equal idempotency keys of valid requests mean equal channel, target, receipt, release and payload files |
| `ReleaseSummary.CreateSummary` | scripts/release/downstream_summary.py:218-315 | succeeds if and only if the inputs are summarizable (a condition on plan, references, pre-site summary and clock); the summary then passes `validate_summary_for_plan`, holds the given references and those of the pre-site summary, lists as unresolved exactly the channels whose state is none of denied, exact no-op and public, and as advertised exactly the public ones but rmux.io, both in channel order |
| `ReleaseSummary.ValidLists` | scripts/release/downstream_summary.py:141-154 | every valid summary, made or read, has these two lists |
| `ReleaseSummary.DraftTells` | scripts/release/downstream_summary.py:281-311 | which reference each result of a summary comes from, and what it tells of plan, authority and pre-site summary |
| `ReleaseSummary.EntriesFor` | scripts/release/downstream_summary.py:241-251 | the pre-site loop appends one entry per channel, and fails exactly when a reference does not fit its channel and plan entry |
| `ReleaseSummary.FinalEntries` | scripts/release/downstream_summary.py:253-279 | append and sort put the site result in its place among the pre-site results |
| `ReleaseSummary.SortPlacesSite` | scripts/release/downstream_summary.py:270-278 | the stable sort by channel index keeps the ten results in order and inserts the site result |
| `ReleaseSummary.SummarizableIsValid` | scripts/release/downstream_summary.py:193-215 | every summary made passes all later checks against its plan |
| `ReleaseSummary.ValidIsSummarizable` | scripts/release/downstream_summary.py:312-315 | the closing validation accepts only summarizable inputs |
| `ReleaseSummary.AdvertisedResult` | scripts/release/downstream_summary.py:141-152 | an advertised channel has a public result of its own in the summary, and is not rmux.io |
| `ReleaseSummary.AdvertisedFollowsPlan` | scripts/release/downstream_summary.py:136-154 | a summary valid for a plan advertises only allowed, ready, unblocked channels, enabled exactly when the plan carries authority |
| `ReleaseSummary.CreatedAdvertisesEnabled` | scripts/release/downstream_summary.py:218-315 | a summary that was made advertises enabled channels only |
| `ReleaseSummary.InactiveIsQuiet` | scripts/release/downstream_summary.py:136-154 | without authority no result of a valid summary claims a mutation, a remote identity or a public state, and nothing is advertised |
| `ReleaseSummary.ResolvedMeans` | scripts/release/downstream_summary.py:146-154 | nothing is unresolved if and only if every channel is denied by the plan or public |
| `ReleaseSummary.FinalKeepsPreSite` | scripts/release/downstream_summary.py:253-300 | a final summary is its pre-site summary's results with the site result inserted, advertising the same channels |
| `ReleaseSummary.DisarmedResultIsRefused` | scripts/release/downstream_summary.py:186-190 | no summary can be made from the reported result of a disarmed channel |
| `ReleaseRequest.ExpectedRequest` | scripts/release/channel_request.py:118-214 | a request that is made validates, names its plan and is no older than it |
| `ReleaseRequest.RequestIff` | scripts/release/channel_request.py:118-214 | a request is made if and only if plan, clock, pre-site summary, retry evidence and payload fit, each a condition on the inputs |
| `ReleaseRequest.ExecutesIffEnabled` | scripts/release/downstream_channels.py:460-481 | a request carries execution authority if and only if its plan entry is enabled, never beyond the plan |
| `ReleaseRequest.RetryKeepsTerms` | scripts/release/channel_request.py:158-186 | every retry repeats an initial request with the same key, payload, target, plan, receipt and pre-site summary, after a record without mutation |
| `ReleaseRequest.RetryTrustsItsRecord` | scripts/release/channel_request.py:154-170 | the digests inside the record are not compared with any document: any others are accepted too |
| `ReleaseRequest.IssuedIsMadeFrom` | scripts/release/channel_request.py:187-214 | a request that is made carries its plan's release, receipt, entry and authority |
| `ReleaseRequest.RetryIff` | scripts/release/prepare-channel-retry.py:193-311 | an initial request can be retried if and only if its result is prepared or transient without mutation, the artifacts of its record are well formed, the payload is alive, the clock has not gone back and the channel is not rmux.io |
| `ReleaseRequest.SecondResultIsValid` | scripts/release/downstream_result_document.py:63-156 | beside any result of an executable request a submitted result of the same request validates too, so nothing in a result says that it is the only one |
| `ReleaseRun.StepIsGood` | scripts/release/downstream_result_reference.py:180-265 | every tool run on issued documents keeps the provenance invariant of all issued documents |
| `ReleaseRun.RunIsGood` | scripts/release/downstream_summary.py:218-315 | so it holds after every sequence of tool runs |
| `ReleaseRun.Sources` | scripts/release/downstream_result_reference.py:205-237 | behind every issued reference stand an issued request and predicate; started before observed before verified |
| `ReleaseRun.SiteStartsAfterItsSummary` | scripts/release/channel_request.py:89-115 | a site result starts no earlier than the issued pre-site summary its request names |
| `ReleaseRun.OthersPrecedePreSite` | scripts/release/downstream_summary.py:161-164 | the other ten results of a final summary were verified before its pre-site summary was made |
| `ReleaseRun.SiteIsLast` | scripts/release/downstream_summary.py:253-279 | in every run, a final summary made of a pre-site summary whose results were verified by the time of the rmux.io request has the rmux.io work start after each other result was verified |
| `ReleaseRun.FinalIsBuilt` | scripts/release/downstream_summary.py:253-279 | every final summary of a run is made of an issued pre-site summary and a result of an issued rmux.io request of the same plan |
| `ReleaseRun.SameSummaryIsInTime` | scripts/release/channel_request.py:105-115 | they were verified by then, in every run, if the request names that very summary |
| `ReleaseRun.SiteIsLastWhenSummarizedOnce` | scripts/release/downstream_summary.py:253-279 | with one pre-site summary to a plan rmux.io is last without any such condition |
| `ReleaseRun.AdvertisedIsReal` | scripts/release/downstream_summary.py:136-154 | in every run an advertised channel stands on an issued public result, started within its request's lifetime, of an executable request under an enabled plan entry |
| `ReleaseRun.InactivePlanIsQuiet` | scripts/release/downstream_result_document.py:101-106 | in every run no result under a plan without authority claims a mutation, remote identity or public state |
| `ReleaseRun.RetriedOnce` | scripts/release/channel_request.py:163-186 | in every run, with retries made by the retry tool or directly, a retry repeats an issued initial request on the same terms |
| `ReleaseRun.ChainIsShort` | scripts/release/channel_request.py:158-186 | in every such run a chain of retries has at most two requests, on the same terms throughout |
| `ReleaseRun.RetryFollowsNoMutation` | scripts/release/downstream_result.py:139-149 | in every run whose retries come from the retry tool, a retry follows an issued result of its original that started no mutation |
| `ReleaseRun.ToolRetriesAreRecorded` | scripts/release/prepare-channel-retry.py:209-290 | the record of such a retry tells of an issued result of the request it repeats |
| `ReleaseRun.OnceIffNoClash` | scripts/release/channel_request.py:158-186 | chains being short, at most one result of every chain claims a mutation if and only if no two mutating results belong to one request or to a request and its retry |
| `ReleaseRun.StepClashIff` | scripts/release/downstream_result_document.py:63-156 | after one tool run there are no two such results if and only if there were none before and a new mutating result, if the run issues one, is for a request that has none, repeats none that has one and is repeated by none that has one |
| `ReleaseRun.ChainMutatesOnce` | scripts/release/downstream_result.py:124-149 | for every run, with retries of either kind: at most one result of each chain claims a mutation if and only if every new mutating result was issued for a request that was, just before, unclaimed in this sense |
| `ReleaseProgress.CompletesIffNoneDisarmed` | scripts/release/channel-execution.py:65-72 | with the states that are reported for channels that may not execute, some run reaches a final summary of a plan if and only if the plan disarms no channel, that is, it carries authority or no channel is both allowed and ready |
| `ReleaseProgress.DisarmedStaysOut` | scripts/release/downstream_summary.py:186-190 | in every run with those states no summary of either phase holds a result of a disarmed channel |
| `ReleaseProgress.FinalMeansNoneDisarmed` | scripts/release/downstream_summary.py:179-190 | so the plan of a final summary disarms no channel |
| `ReleaseProgress.ArmedPlanCompletes` | scripts/release/downstream_summary.py:218-315 | every plan that disarms no channel is brought to a final summary built from the pre-site summary its rmux.io request names |
| `ReleaseProgress.FinalSummaryCompletes` | scripts/release/downstream_summary.py:253-315 | a site reference and any earlier pre-site summary of the plan make a final summary that keeps the ten results |
| `ReleaseProgress.PreSiteSummaryCompletes` | scripts/release/downstream_summary.py:238-252 | a plan that disarms no pre-site channel is brought to a pre-site summary |
| `ReleaseProgress.ChannelCompletes` | scripts/release/downstream_result_reference.py:180-265 | every channel that is not disarmed can be brought from its plan to a reference the summary accepts |
| `ReleaseProgress.ChannelsComplete` | scripts/release/downstream_summary.py:241-251 | and so can any list of such channels, one after the other |
| `ReleaseProgress.RequestCompletes` | scripts/release/channel_request.py:118-214 | a request for any channel of an issued plan can be issued, with admitted payload files |
| `ReleaseProgress.ResultCompletes` | scripts/release/channel-result.py:33-87 | any state without public evidence can be issued for a request that may claim it |
| `ReleaseProgress.PredicateCompletes` | scripts/release/channel-execution.py:65-72 | the reported state of a channel that is not disarmed is one the plan allows |
| `ReleaseProgress.EnvelopeCompletes` | scripts/release/channel-result.py:90-139 | an envelope of an issued result can be issued |
| `ReleaseProgress.ReferenceCompletes` | scripts/release/downstream_result_reference.py:180-265 | and a reference that carries the request's release, receipt, plan and authority |
| `ReleaseProgress.SiteIsLastIff` | scripts/release/downstream_summary.py:253-279 | for every run, issued rmux.io request and issued pre-site summary of its plan: every final summary made of the two, however the run goes on, has rmux.io last if and only if the plan disarms rmux.io (and there is none) or each result of the summary was verified by the time of the request |
| `ReleaseProgress.LateResultBreaksOrder` | scripts/release/downstream_summary.py:253-279 | a result verified after the request: the run goes on to a final summary whose rmux.io work started before it |
| `ReleaseProgress.SiteCanComeFirst` | scripts/release/downstream_summary.py:253-279 | for every plan that can be completed, a run with two pre-site summaries whose rmux.io work started before another of its results was verified |
| `ReleaseProgress.ChainCanMutateTwice` | scripts/release/prepare-channel-retry.py:193-291 | for every plan with an enabled channel other than rmux.io, a run with tool-made retries in which both requests of a chain have a mutating result |
| `ReleaseProgress.DirectRetryNeedsNoResult` | scripts/release/channel_request.py:154-186 | for every valid plan and every channel other than rmux.io, a run in which no result was ever issued and a request is retried all the same, by a direct call with a made-up record |
| `ReleaseProgress.RetryCompletes` | scripts/release/prepare-channel-retry.py:193-311 | a request with a prepared result can be retried |

## Left out

- ArgvCollapse.CollapseKeepsReading: the condition is sufficient for the last-wins reading and necessary only for the scan (`ScanIsReadingIffClear`): a mispaired value can be overridden by chance, as in `-n -t -t -t -t b`, where two wrong pairs leave the reading as it was.
- ArgvDelimit.RewrittenLastWinsReading: does not cover `normalize_tmux_precedence`, which runs between collapsing and delimiting.
- ArgvDelimit.RewrittenCommandLineReading: likewise, and covers commands without repeat flags.
- ReleaseRun.SiteIsLast: keeps the condition on the times of the results, which `create_summary` does not check; `ReleaseProgress.SiteIsLastIff` proves it exact.
- ReleaseRun.ChainMutatesOnce: no validator enforces the condition, which is on what was issued before each new result.
- ReleaseRun.RetryFollowsNoMutation: holds of retries made by the retry tool; a retry made directly is taken on its record (`RetryTrustsItsRecord`, `ReleaseProgress.DirectRetryNeedsNoResult`).
- ReleaseProgress.CompletesIffNoneDisarmed: assumes that a producer, a target URL, payload files, an identifier, a commit, an attestation and artifacts exist that the tools admit for every channel; which texts those are is a parameter.
- ShellQuote.LoneTokenRoundTrip: a word that needs an operator, an expansion or double quotes counts as lost, although a shell returns some of these unchanged (a lone dollar sign, a pattern without a match).
- TomlText.BasicString: an escape of a lone surrogate is refused as a bad escape, where Python accepts it; Dafny characters are Unicode scalar values.
- TomlParser.Parser.ParseBasicString: refuses escapes of lone surrogates, for the same reason.
- TomlParser.Parser.ParseBasicBody: refuses escapes of lone surrogates, for the same reason.
- TomlParser.Parser.ParseChar: refuses escapes of lone surrogates, for the same reason.
- TomlParser.Parser.ParseEscape: refuses escapes of lone surrogates, for the same reason.
- `normalize_tmux_precedence`, clap itself and short flags with an optional value: such flags are an absorbing error of the readings; long options are compared as written.
- The numeric value of TOML floats, which are kept as their digits, Python's limits on integer digits and on recursion, error messages and line numbers.
- In-place update of inline tables: they are built as values and stored when assigned; the store is updated in place for the document.
- Float rounding, `sqrt` and `erfc`: the statistics are exact reals and the tail probability is kept as the pair of arguments it is computed from.
- Python's and Rust's library sort, which is a function with the sortedness and membership it promises.
- The file system, archives, symbolic links beyond a flag, JSON and SHA-256: files are values; the policy hash is any function.
- Policy records beyond ASCII: the path pattern admits ASCII only, so the UTF-8 encoding is the identity.
- Of release documents: schema versions and key sets, the patterns of digests, identifiers, payload files and artifact metadata (predicates of the rules), recovery sources, and the receipt itself, which are compared as wholes.
- Network, subprocess and workflow plumbing, the contract drift checkers, and the daemon, server and client crates, which are not part of this model.
