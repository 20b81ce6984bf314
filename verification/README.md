# Ledgers, numerics and protocols, verified

A Dafny model of the parts of the repository whose promises range over every input, every run or every interleaving. One module per component, named after what it models:

- `DossierTables`, `DossierLedger`, `Ancestry`: the trigger guards of the dossier ledger as an insert-only state machine. A transaction inserts rows against keys and immediate checks, and commits only if every deferred trigger of every inserted row passes. The recursive queries are loops, proved to reach exactly the ancestry they are meant to. `DossierGuards` and `DossierEarned` say what goes in and what an artifact earns; `DossierGrowth`, `DossierEvidence`, `DossierReleases`, `DossierRuns`, `DossierCoverage` and `DossierPromises` hold what every run keeps and what that promises; `DossierLateInput` and `DossierReleaseRun` are concrete runs: into the failure named below, and to a release.
- `ScalarGaussian` (over `LeastSquares`, `Anchoring`, `Factorization`, `TriangularSolves`, `Assembly`), `AccessGeometry` (over `AccessNetwork`, with `AccessChords`) and `Clearance` (with `ClearanceFit`, `ClearanceGroups`, `ClearanceEvaluation`, `ClearanceTies`): the three exact numeric components, over the reals of `RealSums` and the orders of `Ordering`. The loops of the source are loops here, proved against what they are for: a positive definite system solved exactly, the least walk under a three-part order, a Bayesian enumeration that conserves probability.
- `CaptureStore`, `CaptureInvariants`, `CapturePromises`, `CaptureContacts`, `CaptureInspection`, `CaptureSchedule`, `ScheduledRuns`: processes that share only create-only files, interleaved step by step with a crash possible between any two, and the schedule that invokes them. `CaptureProcess.Store` is the store's own code as a class; its methods are proved to take exactly the steps of the interleaved protocol.
- `Board`, `BoardRules`, `BoardHistory`, `BoardInbox`, `BoardPages`, `BoardStore`, `BoardWorkers`, `WorkerRules`, `WorkerInvariants`, `WorkerPromises`, `ReviewPass`, `BoardSeed`: the event-sourced board, its cursor pages, its saved log, and review workers under lost answers, overlapping passes and crashes. `ReviewPass.Client.RunOnce` is the workers' loop, with everybody else acting between its calls; `BoardSeed` shows that the shipped board meets the hypotheses of all of it.
- `JsonText`, `JsonKeys`, `JsonLetters`, `LocalJson`, `LocalJsonText`, `LocalJsonDecoder`, `LocalJsonMeaning`, `LocalJsonPrinter`: JSON texts as derivations of the grammar of RFC 8259, the one-pass duplicate-key scanner related to that grammar, and the canonical encoder with a parser as its left inverse.
- `KeccakSpec`, `KeccakTables`, `KeccakPermutation`, `Keccak`, `BigInts`: FIPS 202 sections 3.2, 3.3, 4 and 5.1 bit by bit, and the BigInt code against it. The rotation table and the round constants are derived from the walk and the shift register of the standard, not repeated.
- `Instants`, `Decimals`: the calendar behind instant parsing, and why canonical instants may be compared as strings. `Basics` holds what every module shares.

What turned out not to hold as one would first state it, with the exact condition under which it does:

- **Standing evidence.** The guards do not by themselves keep standing evidence equal to what its artifact earns: nothing refuses an input row added late to an artifact already cited. `LateInputRun` is three committed transactions that end in such a row, and `LateInputUnsettlesEvidence` the whole family. `EvidenceStandsExactly` and `EvidenceStandsOverRuns` say when they do: exactly when no committed input row brings a standing PRESENT or STALE row a retraction, already on record by the row's instant, that the row does not reflect. Leaving cited ancestries alone is enough (`FrozenRunsStand`). Everything else the ledger keeps (coverage, estimates, releases, conclusions) it keeps over every run, with no such condition.
- **Horizons that end at the assessment.** An artifact whose horizon ends at the very instant it is assessed is PRESENT (`src/db/dossierLedger.ts:509`), and a later build does not see that horizon pass (`src/db/dossierLedger.ts:759`). So a release can conclude upon what is stale by its build: `ReleaseOnStaleRow` is such a run, and `StillPresentAtBuild` says that this is the one exception.
- **Two sources in one root.** The comment at `src/acquisition/store.ts:64` says distinct capture roots keep two sources from colliding on an identifier. The code keys the evidence by `source-capture:<id>` for both (`src/acquisition/store.ts:188`), so they do collide. `InvalidExactlyWhenShared` proves that, on every reachable history, reading an identifier back is refused exactly when it is outside the closed shape or the other source has stored evidence under it; `SharedIdentifierIsRefused` is such a run.
- **Negative information value.** The refusal at `src/compute/clearance-voi.ts:184` can be met in exact arithmetic: `NegativeValueIsReachable` is an experiment within the parser's bounds, all of whose numbers are decimals. `RefusedExactly` says when: exactly when accepting is the decision now and, over the groups rejected all the same, rejecting is riskier than accepting by more in all than the tolerance forgives. So it is never met when rejecting is the decision now, nor when accepting now risks at most one less the tolerance (`NeverRefusedWhenRejecting`, `NeverRefusedAtSmallRisk`).
- **Runs after the window.** A scheduled run need not begin in its window; only the decision to collect is held to it. `LateRunExists` is a run that begins an hour after its window closed, and `WindowExactly` says of every run on disk that it began in the window if and only if the clock, at the step that opened it, had not reached the window's end.
- **Long schedule identifiers.** A schedule identifier may have eighty characters (`src/acquisition/schedule.ts:125`), and so may a capture's (`src/acquisition/store.ts:183`), but a run's identifier is the schedule's with a suffix. `RunIdFits` says which runs the store can address, and `OnlyFittingRunsBegin` that no other run ever begins: a declared schedule with a longer identifier stops early, or never starts.

## Model

| member | source | states |
|---|---|---|
| Ancestry.Readers | src/db/dossierLedger.ts:873-877 | The retraction guard's backward query returns exactly the artifacts that rest on the record at any depth, and stops even though nothing bounds the depth. |
| Ancestry.RecordsUnder | src/db/dossierLedger.ts:484-488 | The forward query returns exactly the records the artifact rests on at any depth; with `Readers`, each is the other's inverse. |
| Ancestry.NoArtifactIsItsOwnAncestor | src/db/discoveryLedger.ts:292-296 | If every derived input was computed strictly earlier, every chain of inputs goes strictly back in time, so none returns to where it began. |
| Ancestry.NewInputsElsewhere | src/db/discoveryLedger.ts:249-298 | Inputs added only outside an artifact's ancestry leave every record it rests on as it was. |
| DossierLedger.ExpectedAssessment | src/db/dossierLedger.ts:466-513 | The assessment computed through the recursive query and the standing validation is the declarative one: an existential over retractions, neighbours and validations as of the row's instant, worst first, nothing for an artifact computed later. |
| DossierLedger.StandingValidation | src/db/dossierLedger.ts:498-503 | The ordered query for one row is a scan that finds the latest validation of the artifact at or before the instant, and nothing exactly when there is none by then. |
| DossierEarned.EarnsExactly | src/db/dossierLedger.ts:504-511 | What is computed in time earns exactly one assessment: each of the five by its own condition over retractions, neighbours, standing validations, horizon and rights, with no order of asking. |
| DossierEarned.ExpectedIsAsOf | src/db/dossierLedger.ts:498-503 | Two ledgers that agree on every retraction and validation dated by an assessment's instant earn the same: nothing dated later is read. |
| DossierEarned.LaterValidationGoesIn | src/db/dossierLedger.ts:897-924 | A validation dated after every assessment of its artifact is never refused. |
| DossierEarned.LaterRecordLifts | src/db/dossierLedger.ts:498-508 | A record by the instant that does not refute lifts every refutation before it: the artifact earns what it would had it never been validated. |
| DossierEarned.RefutationConflicts | src/db/dossierLedger.ts:498-508 | A refutation standing at the instant makes any deliverable artifact computed in time CONFLICTING. |
| DossierGuards.InsertsExactly | src/db/dossierLedger.ts:140-460 | For each of the fourteen tables, a row goes in exactly when it fits: keys, references, bounds, counts that add up, and instants later than all they must be later than. |
| DossierLedger.CheckEvidence | src/db/dossierLedger.ts:520-534 | The evidence trigger passes exactly when the row says what its artifact earns. |
| DossierLedger.CheckRetraction | src/db/dossierLedger.ts:867-894 | The retraction trigger, which looks only at the artifacts the backward query returns, passes exactly when every standing row whose artifact rests on the record is still earned. |
| DossierLedger.CheckStanding | src/db/dossierLedger.ts:872-917 | The loop over standing rows of some artifacts passes exactly when each is still what its artifact earns. |
| DossierLedger.CheckEstimate | src/db/dossierLedger.ts:650-696 | The estimate loop passes exactly when every asked facet, and no other, is counted at the level of its latest assessment by the estimate's instant, at the method's units, and the units add up. |
| DossierLedger.AnyMoved | src/db/dossierLedger.ts:744-768 | The three corpus-moved queries together find something exactly when a present artifact of the row was taken back, expired or refuted between assessment and build. |
| DossierGuards.StillExactly | src/db/dossierLedger.ts:739-768 | The corpus had not moved under a release exactly when no retraction beneath, refutation or horizon of a named present artifact is dated after its assessment and by the build. |
| DossierEarned.StillPresentAtBuild | src/db/dossierLedger.ts:752-768 | Assessed anew at the build, an artifact named PRESENT is PRESENT again if and only if its horizon did not end at the very instant of its assessment, before the build. |
| DossierEarned.ReleaseOnStaleRow | src/db/dossierLedger.ts:756-760 | The exception is reachable: five committed transactions release and conclude upon an artifact that, assessed at the build, is STALE. |
| DossierGuards.NarrowInputIsRefused | src/db/discoveryLedger.ts:427-470 | No transaction commits that states an input without some right its artifact claims. |
| DossierGuards.UnreadArtifactIsRefused | src/db/discoveryLedger.ts:427-470 | No transaction commits that leaves an artifact it inserts with no input. |
| DossierLedger.CheckRelease | src/db/dossierLedger.ts:703-802 | The release loops pass exactly when everything named is of the dossier, not after the build, the latest by then, at the quoted level, over a still corpus, and every facet is named. |
| DossierLedger.CheckRow | src/db/dossierLedger.ts:520-924 | The triggers as they run decide, for every kind of row, the deferred condition the invariants are proved from. |
| DossierLedger.Ledger.Transact | src/db/dossierLedger.ts:466-924 | A transaction writes all its rows, with every deferred check of every row passed against the final state, or writes nothing. |
| DossierEvidence.EvidenceKept | src/db/dossierLedger.ts:466-539 | Evidence, coverage, retraction and validation guards, each of which sees a slice, together keep every standing row earned unless added inputs overtake it. |
| DossierEvidence.EvidenceStandsExactly | src/db/dossierLedger.ts:862-924 | For any committed transaction: every standing row is still earned if and only if the inputs it adds overtake no standing row. |
| DossierRuns.EvidenceStandsOverRuns | src/db/dossierLedger.ts:466-539 | Over every run: standing evidence equals the expected assessment in every state if and only if no committed inputs overtook a standing row. |
| DossierRuns.FrozenRunsStand | src/db/dossierLedger.ts:862-924 | Over every run that adds no input to a cited artifact or its ancestry, all standing evidence, at its own instants, is what its artifacts earn. |
| DossierPromises.LateInputUnsettlesEvidence | src/db/discoveryLedger.ts:249-298 | For every standing PRESENT row and every correction already known to it, an allowed late input naming the corrected record, stated with rights as wide as the artifact's, commits and leaves the row unearned. |
| DossierLateInput.LateInputRun | src/db/discoveryLedger.ts:427-470 | Three concrete transactions that all commit, deferred rights and read-something checks included: after the first two every invariant holds, and after the late input a standing PRESENT row is unearned. |
| DossierPromises.LaterRetractionGoesIn | src/db/dossierLedger.ts:862-866 | A retraction issued after every assessment that rests on its record is never refused. |
| DossierRuns.TransactionKeeps | src/db/dossierLedger.ts:545-860 | Whatever a transaction inserts, coverage still sums its evidence, estimates and releases still satisfy the condition they were committed under, conclusions still rest on present evidence, and no row is lost or changed. |
| DossierRuns.EveryRunKeeps | src/db/dossierLedger.ts:545-860 | The same in every state of every run of attempted transactions. |
| DossierReleases.LatestStays | src/db/dossierLedger.ts:621-644 | If new assessments of the facet are all after an instant, the latest at or before that instant stays the latest. |
| DossierReleases.ReleaseKept | src/db/dossierLedger.ts:703-860 | A release that met its conditions at its build meets them after any later transaction, though only rows inserted then are checked. |
| DossierPromises.ReleaseNamesOnePerFacet | src/db/dossierLedger.ts:777-789 | A release names exactly one assessment per asked facet: the latest at or before its build, at the quoted level; that two cannot pass is proved, not checked. |
| DossierPromises.NamingIsSettled | src/db/dossierLedger.ts:799-824 | No transaction after a release's commit adds to or takes from what it names. |
| DossierPromises.NamingIsForever | src/db/dossierLedger.ts:703-824 | Over every run: a committed release, what it names and the assessments it names never change. |
| DossierPromises.QuotedAmountIsWhatWasBuilt | src/db/dossierLedger.ts:260-289 | The amount quoted for a release is its policy's rate times the units of the levels that release names, across quotation, estimate, coverage and release. |
| DossierCoverage.CountsAreEarned | src/db/dossierLedger.ts:545-587 | Every count of a coverage row, runs included, is that of the artifacts it names, by what each earns as of the row's instant. |
| DossierCoverage.VerdictIsEarned | src/db/dossierLedger.ts:167-216 | From its artifacts alone: THIN takes one that earns PRESENT and SUPPORTED two over two runs, and the assessment is the worst that any of them earns. |
| DossierPromises.ConclusionIsEarned | src/db/dossierLedger.ts:592-613 | A conclusion's artifact earns PRESENT in the one assessment its release names for that facet, which is the latest by the release's build: release, coverage and evidence guards together. |
| DossierReleaseRun.ReleaseRun | src/db/dossierLedger.ts:650-802 | Five concrete transactions that all commit, from a specification to a release and its conclusion: every invariant holds at the end, and what the release names is priced at the quoted amount. |
| DossierPromises.AncestryIsAcyclic | src/db/discoveryLedger.ts:292-296 | Over every run of attempted transactions, in its last state (and so in every state), no artifact is its own ancestor at any depth. |
| Ordering.IdOrderIsTotal | src/compute/access-geometry.ts:94 | The identifier comparison is a total order: antisymmetric, transitive, zero only on equals. |
| Ordering.IdListOrderIsTotal | src/compute/access-geometry.ts:146-152 | So is the comparison of identifier lists. |
| Ordering.IdOrderIsAscending | src/compute/access-geometry.ts:94 | It is ascending: one identifier is before another exactly when it is a proper prefix or has the lesser code unit at the first difference. |
| Ordering.IdListOrderIsAscending | src/compute/access-geometry.ts:146-152 | So are lists of identifiers, identifier by identifier. |
| Ordering.SortedCopy | src/compute/access-geometry.ts:161-175 | A sorted copy holds the same elements with the same multiplicities, in order, and leaves the caller's list alone. |
| AccessNetwork.Validate | src/compute/access-geometry.ts:99-143 | The loops accept exactly what is declared: frame, nodes, ends, edges that reach the chord between their ends, and closures, each by its own bounds; and report a length as too short exactly when the first defective edge is otherwise as declared. |
| AccessNetwork.ValidateSound | src/compute/access-geometry.ts:99-143 | What is as declared has distinct identifiers, known end points and positive lengths: all the search relies on. |
| AccessNetwork.PathOrderIsTotal | src/compute/access-geometry.ts:146-155 | Paths are totally ordered by length, then edge identifiers, then node identifiers. |
| AccessNetwork.PathOrderIsAscending | src/compute/access-geometry.ts:153-155 | The shorter path is less; at equal length the one with the lesser edge identifiers, then with the lesser node identifiers. |
| AccessNetwork.ArcsArePermitted | src/compute/access-geometry.ts:165-172 | What may be crossed is a permitted edge that is not closed, forward, and backward if it is bidirectional. |
| AccessNetwork.WalksAreConnected | src/compute/access-geometry.ts:189-197 | A walk crosses such arcs, each from where the last one arrived. |
| AccessNetwork.PathMeasures | src/compute/access-geometry.ts:191-194 | Its path measures the sum of the lengths crossed and lists the start and every node arrived at. |
| AccessGeometry.BuildAdjacency | src/compute/access-geometry.ts:165-172 | Each node's list holds exactly the permitted, unclosed ways of leaving it, both ways for a bidirectional edge. |
| AccessGeometry.LeastUnsettled | src/compute/access-geometry.ts:177-186 | The scan returns the least path among unsettled nodes, and nothing only if every found node is settled. |
| AccessGeometry.LeastUnsettledIsFinal | src/compute/access-geometry.ts:176-188 | The least unsettled path is the least of all walks to its node, tie-breaks included. |
| AccessGeometry.Relax | src/compute/access-geometry.ts:189-197 | After relaxing a settled node, every stored path is a walk, none got worse, and each beats every extension of a settled path. |
| AccessGeometry.Search | src/compute/access-geometry.ts:173-199 | The loop returns the least walk from start to end in the order, and unreachable exactly when there is no walk at all. |
| AccessGeometry.ShortestPath | src/compute/access-geometry.ts:157-200 | The same for one closure list, with the excluded and closed identifiers reported in full and sorted. |
| AccessNetwork.AnswerIsUnique | src/compute/access-geometry.ts:145-200 | A network, start and end have at most one right answer. |
| AccessNetwork.InputOrderDoesNotShow | src/compute/access-geometry.ts:166-175 | Reordering edges, and reordering or repeating closures, changes no answer. |
| AccessNetwork.ClosingNeverHelps | src/compute/access-geometry.ts:158-167 | Closing more edges never makes a destination newly reachable and never gives a lesser or shorter route. |
| AccessGeometry.EvaluateScenarios | src/compute/access-geometry.ts:211-212 | Every scenario, in identifier order, gets the right answer for its own closures, with what was left out and why, sorted. |
| AccessGeometry.EvaluateAccessGeometry | src/compute/access-geometry.ts:203-217 | Inputs are refused exactly when they are not as declared, as too short exactly when the first defect is; otherwise base and scenarios are answered rightly with their exclusions, and the straight line is the chord between start and end. |
| AccessChords.RoutesReachTheChord | src/compute/access-geometry.ts:125-128 | For any straight-line distance that meets the triangle inequality, no route of an accepted network is shorter than it, by more than validation allows each edge it crosses. |
| LeastSquares.Validate | src/compute/scalar-gaussian.ts:97-129 | The loops accept exactly the declared models: one to sixteen distinct named states, and up to sixty-four distinct factors over known states within their bounds. |
| Anchoring.BuildGraph | src/compute/scalar-gaussian.ts:105-129 | The neighbour sets and anchor flags hold exactly what the factors relate and anchor. |
| Anchoring.VisitComponent | src/compute/scalar-gaussian.ts:133-142 | One visit reaches a set closed under neighbours on which every unmeasured displacement is constant, and knows whether it holds an anchor. |
| Anchoring.UnanchoredMoves | src/compute/scalar-gaussian.ts:131-144 | A component without an anchor can be displaced as a whole with nothing measuring it. |
| Anchoring.AnchoringSearch | src/compute/scalar-gaussian.ts:131-144 | The search accepts if and only if no nonzero displacement has zero quadratic form: the system is positive definite. |
| LeastSquares.FormIsQuadratic | src/compute/scalar-gaussian.ts:146-167 | The form summed over the factors is the quadratic form of the assembled information matrix. |
| LeastSquares.CompleteTheSquare | src/compute/scalar-gaussian.ts:189-207 | Moving from one vector to another changes the weighted squares by a linear term and the quadratic form of the displacement. |
| LeastSquares.NoPull | src/compute/scalar-gaussian.ts:180-182 | At a solution of the normal equations the linear term vanishes in every direction. |
| LeastSquares.UniqueMinimiser | src/compute/scalar-gaussian.ts:180-182 | A solution of the normal equations of a positive definite system is strictly better than every other vector. |
| Assembly.Assemble | src/compute/scalar-gaussian.ts:146-167 | The in-place assembly yields, entry by entry, the information matrix and right-hand side as sums over the factors. |
| LeastSquares.OrderDoesNotShow | src/compute/scalar-gaussian.ts:148-150 | Neither matrix, right-hand side nor weighted squares depends on the order of the factors. |
| Factorization.Cholesky | src/compute/scalar-gaussian.ts:63-78 | The factorisation is refused if and only if some leading quadratic form is at or below the pivot threshold, and otherwise its result is lower triangular, has a positive diagonal and multiplies out to the matrix. |
| Factorization.SmallPivot | src/compute/scalar-gaussian.ts:69-71 | A pivot at or below the threshold exhibits a leading vector whose form is at or below it, whatever the earlier pivots. |
| Factorization.FactoredPivotsExceed | src/compute/scalar-gaussian.ts:69-71 | A completed factorisation means every leading form exceeds the threshold. |
| TriangularSolves.SolveCholesky | src/compute/scalar-gaussian.ts:80-94 | The two in-place substitutions leave a vector that solves the backward system of a vector that solves the forward one. |
| TriangularSolves.FactorSolves | src/compute/scalar-gaussian.ts:80-94 | The two triangular systems together solve the factored matrix. |
| TriangularSolves.Invert | src/compute/scalar-gaussian.ts:171-176 | Solving for each unit vector gives the inverse of the factored matrix. |
| TriangularSolves.InverseUnique | src/compute/scalar-gaussian.ts:171-176 | A symmetric matrix has one inverse, and it is symmetric. |
| ScalarGaussian.CovarianceIsInverse | src/compute/scalar-gaussian.ts:183-185 | Averaging the inverse with its transpose and undoing the scaling gives the whole inverse of the information matrix. |
| ScalarGaussian.Residuals | src/compute/scalar-gaussian.ts:189-207 | Residuals come in the caller's order, and the compensated sum in identifier order is the weighted sum of squares at the mean. |
| ScalarGaussian.SolutionUnique | src/compute/scalar-gaussian.ts:211-216 | A model has at most one solution, all reported fields included. |
| ScalarGaussian.NormIsLargestRow | src/compute/scalar-gaussian.ts:59-61 | The infinity norm is at least every row's sum of absolute values and equals one of them. |
| ScalarGaussian.ConditionExactly | src/compute/scalar-gaussian.ts:177-178 | The condition is within its limit exactly when every row of the scaled matrix and every row of its inverse multiply, in magnitude, to at most 1e10. |
| ScalarGaussian.ResidualIsDeviation | src/compute/scalar-gaussian.ts:189-194 | A residual is what the mean gives less what was measured, and the standardised one is it in standard deviations. |
| ScalarGaussian.SolveAnchored | src/compute/scalar-gaussian.ts:146-216 | An anchored model is accepted if and only if its pivots exceed 1e-12, no pair of row sums of the scaled matrix and its inverse multiplies beyond 1e10, and the exact solution keeps to the magnitudes allowed; and then its solution is exact. |
| ScalarGaussian.SolveScalarGaussian | src/compute/scalar-gaussian.ts:97-216 | Each refusal is met exactly on its own condition; what is returned is the whole inverse of the information matrix, the unique minimiser of the weighted squares, and that minimum. |
| JsonText.DecodeBodyDecodes | src/data-os/json-keys.ts:23 | Decoding a string literal's units gives the characters it was written from, over every escape of RFC 8259 section 7. |
| JsonText.BodyEndsAtQuote | src/data-os/json-keys.ts:16-20 | Stepping over escapes stops exactly at the closing quote, whatever follows. |
| JsonKeys.SkipString | src/data-os/json-keys.ts:17-20 | The inner loop stops at the first unescaped quote, or past the end after a last backslash. |
| JsonKeys.ScanValue | src/data-os/json-keys.ts:7-29 | Over any value inside any text the scan either finds a duplicate in it or comes out with the stack it went in with. |
| JsonKeys.ScannerIsExact | src/data-os/json-keys.ts:5-30 | On every JSON text the scan reports a duplicate if and only if some object at some depth has two members of one decoded name. |
| JsonKeys.RejectDuplicateJsonKeys | src/data-os/json-keys.ts:5-30 | So does the loop with its index and mutated stack; on any other text too it equals the scan. |
| JsonLetters.EscapedKeyRepeats | src/data-os/json-keys.ts:17-25 | A text one can read, `{"a":null,"\u0061":true}`, that repeats a key though nothing in it looks repeated. |
| LocalJson.RefusedExactly | src/data-os/local-json.ts:28-37 | Exactly the plain values at most twenty levels deep are encoded, and a refusal names a rule that was broken. |
| LocalJson.QuotedDecodes | src/data-os/local-json.ts:30-34 | The literal written for any string, lone surrogates included, decodes to that string. |
| LocalJsonText.QuotesAreShortest | src/data-os/local-json.ts:30-34 | Outside surrogates every unit is written in the shortest way the grammar has for it. |
| LocalJsonText.SurrogatesAreEscaped | src/data-os/local-json.ts:30-34 | A surrogate on its own is escaped in lower-case digits, and a pair is not. |
| LocalJsonText.KeysAscend | src/data-os/local-json.ts:34 | Keys go out in ascending order of their code units. |
| LocalJsonDecoder.EncodingParses | src/data-os/local-json.ts:28-37 | Any encoding, followed by anything that may end a value, parses to the value's meaning and leaves the rest. |
| LocalJsonMeaning.DecodeEncode | src/data-os/local-json.ts:28-37 | The encoder has a left inverse on every plain value of permitted depth. |
| LocalJsonMeaning.KeyOrderDoesNotShow | src/data-os/local-json.ts:34 | Two values that differ in the order of their keys, at any depths, encode or are refused alike. |
| LocalJsonMeaning.EqualEncodingsExactlyForEqualMeanings | src/data-os/local-json.ts:28-37 | Two encodings are equal if and only if the values mean the same. |
| LocalJsonMeaning.CanonicalTextPassesTheScanner | src/data-os/json-keys.ts:5-30 | No canonical text is ever refused by the duplicate-key scanner. |
| LocalJsonPrinter.PrintIsFaithful | src/data-os/local-json.ts:31 | What the encoding results ask of the way numbers are printed can be met: a printer that keeps all finite doubles apart and keeps to the number grammar. |
| LocalJsonPrinter.FiniteExactly | src/data-os/local-json.ts:31 | The numbers taken as finite are exactly those of binary64, IEEE 754-2019 section 3.3: at most 53 bits times a power of two from -1074 to 971. |
| BigInts.BitAnd | src/chain/keccak.ts:38-60 | Conjunction of unbounded two's complement integers, negative ones included, is bit by bit. |
| BigInts.BitOr | src/chain/keccak.ts:38 | So is disjunction. |
| BigInts.BitXor | src/chain/keccak.ts:45-64 | So is exclusive or. |
| BigInts.BitNot | src/chain/keccak.ts:60 | So is complement. |
| BigInts.BitShiftLeft | src/chain/keccak.ts:38 | A left shift moves every bit up and brings in zeros. |
| BigInts.BitShiftRight | src/chain/keccak.ts:38-93 | A right shift moves every bit down, for negative integers too. |
| KeccakTables.RotlBits | src/chain/keccak.ts:37-38 | On a 64-bit lane the masked rotation stays in 64 bits and moves each bit around by the amount. |
| KeccakTables.RotationsAreTheWalk | src/chain/keccak.ts:31-34 | The rotation table is the walk of FIPS 202 section 3.2.2, modulo 64, for every lane. |
| KeccakTables.RoundConstantsAreTheRegister | src/chain/keccak.ts:22-29 | Each bit of each round constant is the bit the shift register of section 3.2.5 produces for that round. |
| KeccakPermutation.ColumnParities | src/chain/keccak.ts:44-45 | The parities are taken over whole columns. |
| KeccakPermutation.Theta | src/chain/keccak.ts:43-49 | The in-place loop gives every lane its own value xor the two column parities of the lanes as they were. |
| KeccakPermutation.ThetaShows | src/chain/keccak.ts:43-49 | On lanes that hold a state of the standard, that is the standard's theta, and no lane leaves 64 bits. |
| KeccakPermutation.RhoPi | src/chain/keccak.ts:51-56 | The scattering loop fills every place once, each with its rotated source. |
| KeccakPermutation.RhoPiShows | src/chain/keccak.ts:51-56 | That is the standard's rho followed by its pi. |
| KeccakPermutation.Chi | src/chain/keccak.ts:58-62 | Writing the lanes back row by row loses nothing of the state it reads. |
| KeccakPermutation.ChiShows | src/chain/keccak.ts:58-62 | That is the standard's chi; the masked complement of an unbounded integer is the lane's complement. |
| KeccakPermutation.IotaShows | src/chain/keccak.ts:63-64 | Xoring the round constant into lane 0 is the standard's iota. |
| KeccakPermutation.Permute | src/chain/keccak.ts:41-66 | Whatever state of the standard the lanes held, after 24 rounds in place they hold its Keccak-f[1600]. |
| Keccak.Padded | src/chain/keccak.ts:73-76 | The padded input is a positive whole number of blocks and longer than the message. |
| Keccak.Pad | src/chain/keccak.ts:73-76 | The array is the padded input, 0x81 in the one-byte case included. |
| Keccak.PaddingIsInjective | src/chain/keccak.ts:72-76 | No two messages, of any lengths, are padded alike. |
| Keccak.PaddingIsTheStandard | src/chain/keccak.ts:72-76 | On bits, it is the message followed by pad10*1 of section 5.1 with no suffix. |
| Keccak.LoadLane | src/chain/keccak.ts:81-82 | Eight bytes, lowest first, become a lane whose bits are theirs. |
| Keccak.AbsorbBlock | src/chain/keccak.ts:80-84 | One block's 136 bytes are xored into the first 1088 bits of the state. |
| Keccak.Squeeze | src/chain/keccak.ts:88-96 | The output bytes are the first 256 bits of the state. |
| Keccak.Keccak256 | src/chain/keccak.ts:71-97 | For input of every length, the digest is bit for bit that of the standard's sponge with the original padding. |
| CaptureInvariants.StepKeeps | src/acquisition/store.ts:294-352 | Every step of every process keeps every stored file, every contact made and every process in flight in order. |
| CapturePromises.EveryRunKeeps | src/acquisition/store.ts:294-352 | So does every interleaving of launches, steps and crashes. |
| CapturePromises.HistoryIsKept | src/data-os/local-files.ts:83-125 | Over every run nothing on disk changes or goes: a spent slot is never reclaimed. |
| CapturePromises.OneContactPerRequest | src/acquisition/store.ts:294-319 | Over every run the source is contacted at most once for one request identifier, ever. |
| CapturePromises.OneContactPerMinute | src/acquisition/store.ts:245-261 | Over every run no two contacts of one source start in the same minute. |
| CapturePromises.FourContactsPerDay | src/acquisition/store.ts:262-264 | Over every run at most four contacts of one source start on one day. |
| CaptureContacts.GrantedExactly | src/acquisition/store.ts:245-264 | A process whose minute is free is granted, by its own steps and with the first free slot, exactly when fewer than four claims stand on its source's day; otherwise it finishes with its budget exhausted and contacts nobody. |
| CaptureContacts.ContactsAreAllowed | src/acquisition/store.ts:194-202 | Over every run, each contact was made inside the half-open window of its source's registration, with the rights to ingest and to derive. |
| CaptureContacts.EvidenceIsAdmitted | src/data-os/local-intake.ts:55-82 | Over every run, what is stored is one byte to eight mebibytes, captured inside its registration's window with the right to ingest. |
| CaptureInvariants.ParsedMatches | src/acquisition/store.ts:348-351 | The result drawn from stored evidence, captured or quarantined, is one that reading back accepts. |
| CapturePromises.InvalidExactlyWhenShared | src/acquisition/store.ts:355-415 | On every reachable history, crashes included, reading back is refused if and only if the identifier is outside the closed shape or the other source stored evidence under it. |
| CaptureInspection.ReportedExactly | src/acquisition/store.ts:355-415 | On any files whatever, a history is reported exactly when all of it is whole: intent, policy, budget claims, evidence, receipt, and observations that the source's parser gives again. |
| CaptureInspection.AbsentExactly | src/acquisition/store.ts:355-360 | Nothing is reported exactly when nothing at all is stored under the identifier. |
| CapturePromises.OneSourceIsNeverInvalid | src/acquisition/store.ts:355-415 | With one source in a root, no reachable history is reported invalid for any identifier in the closed shape. |
| CapturePromises.CapturedStaysReadable | src/acquisition/store.ts:355-415 | Once a receipt says CAPTURED, it is reported unchanged after any further interleaving, with stored evidence on which the source's parser still gives its observations, unless the other source stored evidence under its identifier. |
| CapturePromises.CapturedRecomputes | src/acquisition/store.ts:388-404 | Corollary beside `InvalidExactlyWhenShared`, on any files whatever: a capture is reported only if its budget is held, its acquisition is the receipt's and the source's parser, on the stored bytes, gives the receipt's observations. |
| CaptureProcess.SharedIdentifierIsRefused | src/acquisition/store.ts:188-193 | Two sources under one root do collide: after one stores evidence, the other's first look at that identifier is refused though it has no history. |
| CaptureProcess.Store.Reserve | src/acquisition/store.ts:251-260 | A slot is granted exactly when nobody held it, and is then held for good. |
| CaptureProcess.Store.ReserveBudget | src/acquisition/store.ts:245-264 | Granted exactly when the minute and one of four day slots are free, and then with the first free one; each claim is a step of the protocol, and a denial leads to a failed receipt. |
| CaptureProcess.Store.Keep | src/data-os/local-intake.ts:80-119 | Bytes, then their record, go to the evidence rail in the protocol's order before anything parses them. |
| CaptureProcess.Store.Finish | src/acquisition/store.ts:322-328 | A receipt is written only if the clock has not gone back, by the protocol's step. |
| CaptureProcess.Store.Capture | src/acquisition/store.ts:294-352 | A whole call takes the protocol's steps from beginning to end, ends, and contacts the source at most once. |
| CaptureSchedule.CollectsExactly | src/acquisition/schedule.ts:164-212 | A plan says to collect if and only if the schedule is enabled, every run has finished, budget remains, the instant is in the window and the interval has passed since the latest run, in whatever order the history comes. |
| CaptureSchedule.PlansExactly | src/acquisition/schedule.ts:164-212 | Exactly the schedules within their bounds are planned; a plan gives the first reason not to collect and names the instant from which the next run could begin: the window's opening, the latest start plus the declared hours, now, or none. |
| CaptureSchedule.NextEligibleIsNotEarly | src/acquisition/schedule.ts:183-208 | Before the instant a plan names, or ever if it names none, the same history collects nothing. |
| CaptureSchedule.RunIdsAreDistinct | src/acquisition/statutoryRun.ts:85-87 | A run identifier determines schedule and run number, though schedule identifiers may themselves end in a number. |
| CaptureSchedule.RunIdFits | src/acquisition/store.ts:183-187 | A declared schedule's run can be addressed in the store if and only if its identifier, suffix included, has at most eighty characters. |
| CaptureSchedule.ReadRunHistory | src/acquisition/statutoryRun.ts:100-108 | The history read is of runs 1 to k with nothing skipped, and unless the budget is spent run k+1 is absent; it fails only on a run that cannot be read back. |
| ScheduledRuns.CollectingIsMandated | src/acquisition/statutoryRun.ts:123-137 | A yes from a history that may be out of date still means that on disk every earlier run has its receipt and began an interval before. |
| ScheduledRuns.EveryRunKeeps | src/acquisition/statutoryRun.ts:117-142 | Every interleaving of clock, invocations, reads and store steps keeps every run and every process in flight under a mandate that was good. |
| ScheduledRuns.RunsAreContiguous | src/acquisition/statutoryRun.ts:96-108 | However invocations overlap, the runs on disk are exactly 1 to k, with k within the budget. |
| ScheduledRuns.RunsAreSpaced | src/acquisition/schedule.ts:177-208 | No run begins while an earlier one lacks its receipt, starts are at least the interval apart, and the decision lay in the half-open window. |
| ScheduledRuns.WindowExactly | src/acquisition/store.ts:306-311 | Every run on disk was opened by one step, began at the clock of that step, and began in the half-open window if and only if that clock had not reached the window's end. |
| ScheduledRuns.RunMayBeginLate | src/acquisition/statutoryRun.ts:123-137 | For every enabled schedule whose first run the store can address, and every instant after its window at which the source policy is in force, an interleaving in which the first run begins at that instant. |
| ScheduledRuns.LateRunExists | src/acquisition/schedule.ts:196-204 | A concrete schedule, source and interleaving: decided at the opening of an hour's window, begun an hour after it closed. |
| ScheduledRuns.OnlyFittingRunsBegin | src/acquisition/store.ts:183-187 | Over every interleaving, no run begins whose identifier passes the eighty characters the store allows. |
| BoardRules.PostsExactly | src/coordination/ledger.ts:86-115 | A post is accepted, and leads where it does, exactly when it reads, its author may send it, and its request is new with room left or said just this before. |
| BoardRules.RegistersExactly | src/coordination/ledger.ts:66-84 | A registration is accepted exactly when it describes a participant within the bounds, who is new with room left or registered just so. |
| BoardRules.AcknowledgesExactly | src/coordination/ledger.ts:117-127 | An acknowledgement is accepted exactly from somebody other than the author, to whom the message went or was open, who declares its domain. |
| BoardRules.PostRefusalIsJust | src/coordination/ledger.ts:86-115 | A refused post names a rule it broke. |
| BoardRules.RegistrationRefusalIsJust | src/coordination/ledger.ts:66-84 | So does a refused registration. |
| BoardRules.AcknowledgementRefusalIsJust | src/coordination/ledger.ts:117-127 | And a refused acknowledgement. |
| BoardRules.TrimIsBetweenBlanks | src/coordination/ledger.ts:16-19 | A text is read without the blanks at either end and nothing else. |
| BoardHistory.AcceptedOnceIsNoOpEverAfter | src/coordination/ledger.ts:77-126 | A command accepted once is accepted and changes nothing in every later state of the board, whatever was done since. |
| BoardHistory.AppliedKeeps | src/coordination/ledger.ts:66-143 | An accepted command keeps the board in order. |
| BoardHistory.EveryRunKeeps | src/coordination/ledger.ts:130-143 | So does every log of commands, over every scope. |
| BoardHistory.NumberedInOrder | src/coordination/ledger.ts:113-114 | Per scope the messages are numbered exactly 1 to n in the order posted, and named by their numbers. |
| BoardHistory.HighWaterIsCount | src/coordination/ledger.ts:113 | The largest number in a scope is the count of its messages. |
| BoardHistory.OneMessagePerRequest | src/coordination/ledger.ts:105-111 | One author has one message for one request identifier. |
| BoardHistory.ParentIsEarlier | src/coordination/ledger.ts:99-104 | A reply's parent is in the same scope, earlier, with the same topic and release context. |
| BoardHistory.ThreadKeepsTopicAndContext | src/coordination/ledger.ts:99-104 | Every thread has a root and keeps its topic and context at every depth. |
| BoardHistory.OtherScopesUnchanged | src/coordination/ledger.ts:48-143 | A command bound to one scope leaves every other as it was. |
| BoardInbox.PageIsExact | src/coordination/inbox.ts:5-30 | A page lists, in increasing order, exactly the eligible messages between its two cursors; if there is more it is full and moves on, and if not it reaches the end of the board. |
| BoardPages.InboxExactly | src/coordination/inbox.ts:5-34 | Every query is told exactly what it is to be told: the one thing wrong with it, or a page of what that participant is to see, with its own receipts. |
| BoardInbox.NothingBecomesEligible | src/coordination/inbox.ts:17-27 | On any later board no message up to a returned high-water mark is newly eligible. |
| BoardInbox.WalkReturnsEachOnce | src/coordination/inbox.ts:12-29 | Following the cursor from zero to the end on a growing board returns each message once, in order, and misses none that is still eligible at the end. |
| BoardStore.Repository.constructor | src/coordination/store.ts:15-30 | With no file yet, the board is the seed. |
| BoardStore.Repository.Load | src/coordination/store.ts:27-42 | The replay loop succeeds exactly on a log that can be read back, and gives the board it describes. |
| BoardStore.Repository.Read | src/coordination/store.ts:45 | Reading gives the saved board or reports the log invalid. |
| BoardStore.Repository.Execute | src/coordination/store.ts:46-71 | Under the lock a command is refused, found to change nothing, turned away at 15000 commands or 16 MiB, or appended whole: the file afterwards is said for each, and for a stop before or after the rename, which leaves the lock held. |
| BoardStore.ReplayedBoardIsOk | src/coordination/store.ts:35-40 | A board rebuilt from its log is in order. |
| BoardStore.RetryAddsNothing | src/coordination/store.ts:53-56 | Any saved command sent again, whatever was saved since, is accepted and adds nothing to the log. |
| BoardSeed.SeedIsOk | src/coordination/seed.ts:10-35 | The shipped seed, whatever its prose, is a board in order, with nothing of the reviewers' on it in any scope. |
| BoardSeed.ShippedBoardIsOk | src/coordination/store.ts:35-40 | Every log that replays over the shipped seed gives a board in order, with no hypothesis on the seed left. |
| BoardSeed.ShippedRunsKeep | src/coordination/seed.ts:25-35 | Every run of reviewers and others over the shipped seed keeps results before receipts and one result per request. |
| WorkerPromises.EveryRunKeeps | src/coordination/candidate-build-review.ts:128-171 | Any interleaving of passes, others' commands, lost calls and crashes keeps results and acknowledgements in order. |
| WorkerInvariants.AcceptedAnswerIsSaved | src/coordination/candidate-build-review.ts:147-155 | An answer the board accepts is, or already was, a saved result for that request. |
| WorkerPromises.AcknowledgedOnlyAfterResult | src/coordination/contract-review.ts:58-85 | A worker's acknowledgement is on the board only if its result for that request is. |
| WorkerPromises.OneResultPerRequest | src/coordination/candidate-build-review.ts:105-157 | However many passes there are, a request has at most one reply by the worker, a result under the derived identifier; an inspection's is at most 3500 characters. |
| WorkerRules.RequestsExactly | src/coordination/contract-review.ts:61-64 | Which messages each worker answers. |
| WorkerRules.AnswersExactly | src/coordination/contract-review.ts:67-76 | An answer is a result to whoever asked, in the request's thread, under its worker's name and the request's. |
| WorkerRules.AnswerNamesDiffer | src/coordination/contract-review.ts:67 | No two requests and no two workers share the name an answer goes under. |
| WorkerRules.PostingExactly | src/coordination/candidate-build-review.ts:143-157 | Whoever posts goes on to acknowledge or read back exactly so: a contract review when told that the board took its answer, a candidate inspection after any post of a sound report of at most 3500 characters. |
| WorkerRules.PriorExactly | src/coordination/candidate-build-review.ts:105-126 | An earlier answer is used again exactly when it answers this request, and a candidate report only if it is also sound and later. |
| ReviewPass.Client.HandleRequest | src/coordination/contract-review.ts:64-78 | Answering one request, with everybody else and other passes acting between its calls and any call lost or answered uncertainly, takes only the steps of a pass, and unless abandoned ends with the result saved and the request acknowledged. |
| ReviewPass.Client.SendAnswer | src/coordination/candidate-build-review.ts:142-157 | A post whose response was lost is settled by reading back: the pass goes on to acknowledge only if a usable result is on the board. |
| ReviewPass.Client.RunOnce | src/coordination/contract-review.ts:49-86 | One pass among others: it counts at most its limit, as processed exactly requests the board held no answer to and as recovered ones it held a usable answer to; it stops short only at the limit or after fifty full pages; and when its scan is complete every request it handles on the board as of its last page is answered, none at all left if only results came since. |
| ReviewPass.PageCovers | src/coordination/candidate-build-review.ts:128-169 | Handling a page's messages extends what is answered from one cursor to the next, on a board that others change meanwhile. |
| ReviewPass.CoveredStays | src/coordination/contract-review.ts:58-83 | What a pass has covered up to its cursor stays covered, whoever posts and acknowledges after it. |
| ReviewPass.LastPageCoversAll | src/coordination/candidate-build-review.ts:167 | When a page says there is no more, all that was asked by then is answered, and all there is if only results came since. |
| Clearance.CompensatedSum | src/compute/clearance-voi.ts:49-53 | The compensated loop returns the plain sum. |
| ClearanceFit.ExactDecimalSumNonnegative | src/compute/clearance-voi.ts:76-82 | The integer comparison decides the sign of the exact decimal sum, whatever the exponents. |
| ClearanceFit.FitsBothSides | src/compute/clearance-voi.ts:90-98 | The sign that is decided is that both side clearances reach the threshold, for offsets of either sign. |
| Clearance.ChosenNearLeast | src/compute/clearance-voi.ts:83-88 | The decision's loss is at least the least and within the tolerance's factor of it, above it exactly in a conservative tie. |
| Clearance.AcceptsExactly | src/compute/clearance-voi.ts:83-88 | Accepting is decided exactly when its risk undercuts that of rejecting by more than a trillionth of it. |
| Clearance.ScaleFree | src/compute/clearance-voi.ts:83-88 | Scaling both risks changes no decision, so unnormalised branch risks decide as posteriors do. |
| ClearanceEvaluation.BeliefOf | src/compute/clearance-voi.ts:115-131 | Over a distribution, the belief reports the fitting mass as fit probability, the risks of accepting and rejecting on the unfitting and fitting mass, and the decision they lead to. |
| ClearanceEvaluation.EvaluateBranch | src/compute/clearance-voi.ts:161-173 | A branch reports its probability, the posterior by Bayes' rule, the fit probability and risks of that posterior, and the loss of the decision shown; none of these for an impossible branch. |
| ClearanceGroups.GroupsAreExact | src/compute/clearance-voi.ts:150-155 | Each group holds, in order, exactly the joint outcomes that look alike through the selected actions, and no two groups look alike. |
| ClearanceEvaluation.Groups | src/compute/clearance-voi.ts:150-161 | In the order of their keys, one group for every way the joint outcomes look and, with one action, for every outcome it could show; sorting and empty groups change no sum. |
| Clearance.GroupingKeepsSum | src/compute/clearance-voi.ts:150-155 | Every joint outcome is in exactly one group: any quantity summed by groups is its sum over the outcomes. |
| ClearanceEvaluation.Evaluate | src/compute/clearance-voi.ts:139-198 | The masses always add up; each returned branch is what its group says and their probabilities sum to one; the loss is both the sum of the branches' and the expected loss, information value, cost and net value follow from it, and the refusal is met exactly on the condition of `RefusedExactly`. |
| ClearanceEvaluation.RisksAddUp | src/compute/clearance-voi.ts:161-173 | Whatever is measured, the groups' accept risks add up to the risk of accepting now, and their reject risks to that of rejecting now. |
| ClearanceEvaluation.RefusedExactly | src/compute/clearance-voi.ts:181-187 | For every declared model and selection the refusal is met if and only if the current decision is to accept and the reject risks exceed the accept risks, over the groups the rule rejects, by more than the tolerance times the larger of one and the current accept risk. |
| ClearanceEvaluation.NeverRefusedWhenRejecting | src/compute/clearance-voi.ts:181-187 | When the current decision is to reject, no measurement loses anything. |
| ClearanceEvaluation.NeverRefusedAtSmallRisk | src/compute/clearance-voi.ts:181-187 | When accepting now risks at most one less the tolerance, no measurement is refused. |
| ClearanceEvaluation.BranchProbabilitiesSumToOne | src/compute/clearance-voi.ts:175-179 | Whatever is measured, branch probabilities sum to one. |
| ClearanceEvaluation.PosteriorsAverageToPrior | src/compute/clearance-voi.ts:161-165 | Whatever is measured, branch posteriors weighted by probability average to the prior, state by state. |
| Clearance.InformationNeverHurtsBeyondTies | src/compute/clearance-voi.ts:180-187 | Measuring more never raises the expected loss by more than the factor of the tolerance, and never at all with ties taken exactly. |
| ClearanceTies.OnlyTiesHurt | src/compute/clearance-voi.ts:85-86 | If measuring more does raise the loss, some branch of the finer measurement is rejected in a conservative tie. |
| ClearanceTies.TiesAreTheDifference | src/compute/clearance-voi.ts:85-86 | Over any groups the expected loss exceeds that of exact decisions if and only if some branch is in a conservative tie. |
| ClearanceEvaluation.UnmeasuredIsCurrent | src/compute/clearance-voi.ts:141-149 | The early return for no measurement agrees with the enumeration. |
| ClearanceTies.NegativeValueIsReachable | src/compute/clearance-voi.ts:181-184 | An experiment within the parser's sizes and bounds, every number of it a decimal, that is refused in exact arithmetic. |
| Instants.NextDayIsNextNumber | src/data-os/validation.ts:28-30 | Through the leap-year and month tables, the next accepted date is always the next day. |
| Instants.DayNumberIsMonotone | src/data-os/validation.ts:28-30 | Earlier dates have smaller day numbers, so none is counted twice. |
| Instants.EveryDayHasADate | src/data-os/validation.ts:28-30 | Every day from year zero on is an accepted date. |
| Instants.CalendarIsKnown | src/data-os/validation.ts:28-37 | The twelve months, leap days by century, and day zero at the start of 1970. |
| Instants.ParsesExactlyRealInstants | src/data-os/validation.ts:23-37 | Text in the canonical millisecond UTC shape is parsed if and only if it names a real date and time, and then to its instant. |
| Instants.ParsesExactlyRealStamps | src/data-os/validation.ts:25-36 | Of all text in the grammar, with no fraction or one to three digits of it and with Z or a numeric offset, exactly what names a real date, time and offset is parsed, and to its instant. |
| Instants.OnlyStampsParse | src/data-os/validation.ts:25-33 | Whatever is parsed is the text of some real stamp: nothing outside the grammar gets through. |
| Instants.StringOrderIsInstantOrder | src/acquisition/store.ts:324 | Comparing canonical millisecond UTC instants as strings is comparing the instants; equal text exactly for equal instants. |
| Instants.CanonicalOrder | src/data-os/local-census-candidate-build.ts:136 | The same for any two strings the stores accept as canonical. |
| Instants.SlotsAreDaysAndMinutes | src/acquisition/store.ts:248-249 | The character ranges that name the budget slots agree exactly when the day, and the minute of the day, agree. |

## Left out

- Floating point: `ScalarGaussian`, `AccessGeometry` and `Clearance` are over the reals, with square root and the chord distance as parameters, so finiteness and underflow refusals do not arise.
- DossierLedger.CheckRelease: that the corpus had not moved under a release's assessments is a condition of its commit, not an invariant; a retraction recorded later and dated in between is accepted by the code.
- DossierLedger.Ledger.Transact: each transaction is atomic. Concurrent transactions are not modelled, nor are updates and deletes, which the guards refuse for the ledger's rows and do not refuse for artifact contents, inputs, retractions and quotations.
- Authorization, execution, delivery and amendment tables, corpus records, workload runs and the validation-state column of artifacts, and the stages of a spec.
- Digests: SHA-256 is taken as injective, so a record named by digest in a file is held by value; nonces are fresh numbers.
- CapturePromises.InvalidExactlyWhenShared: reading back is one atomic look at the files. A reader overlapping a writer can see an orphan.
- CaptureProcess.Store.Reserve: the read that precedes a create-only link is one step with it; the file system's refusal to overwrite makes the two agree. Temporary files, links and path checks are not modelled.
- The etag and last-modified headers of a response, which the reader of the response and the reading back of the receipt hold to one rule, and HTTP, DNS, TLS and redirects.
- ScheduledRuns.RunsAreContiguous: the clock does not go back, and nobody else captures under the schedule's own run identifiers.
- Parsing a schedule, a capture plan or an inbox query from raw JSON; the schedule is taken as declared within its bounds.
- LocalJsonMeaning.DecodeEncode: numbers are printed by any function that keeps finite numbers apart and keeps to the number grammar, of which `LocalJsonPrinter` exhibits one; a double is its significand and exponent, with negative zero identified with zero because both print as 0. Arrays with holes are not modelled.
- Board text is text of Dafny characters; limits counted in UTF-16 units agree with it on text without surrogate pairs.
- WorkerPromises.OneResultPerRequest: nobody else posts or acknowledges under a worker's identifier; identities on the board are declared, not authenticated. The text of a report is a parameter.
- ReviewPass.Client.RunOnce: whether a snapshot is of a writable local sandbox of one scope is not modelled; a call that fails for any reason is one that is not answered.
- Connections between participants (`src/coordination/ledger.ts:52-64`), command-line entry points, routes and pages.
- The ranking and selection states of measurements, entropies, Brier scores, variances, numerical diagnostics and the validation report of `src/compute/clearance-voi.ts`.
- `src/compute/rigid-registration.ts` (convergence in floating point), `src/chain/eip712.ts`, the normalisation, candidate-build, census-package and Samsara stores, and the warrant, commercial and capacity ledgers: they would add breadth, not harder claims.
