# Verified model of the MCP proxy core

The proxy sits between an agent and an MCP server. It compiles JSON policies to Rego, caches the
decisions of a policy engine, keeps sessions, writes an audit log, matches upstream responses to
requests and routes JSON-RPC messages over pooled objects. This project models those parts in Dafny
and proves what they keep over every input and every run. `dafny verify dfyconfig.toml` checks it all.

| files | subject |
|---|---|
| `Text`, `Json` | strings, JSON values whose objects are ordered member lists |
| `Expressions`, `ExpressionMeaning`, `ExpressionTight`, `ExpressionReader`, `AuthorReading`, `IterationOrder`, `OrderExact` | the expression compiler: emitted text, Rego's reading of it, what the JSON says when read directly, when the two agree, when map order shows |
| `RegoTests`, `LiteralPrinter`, `PastedText` | single comparisons, the literal printer and a parser for it, text pasted without quotes |
| `RuleIds`, `Policy`, `RegoModule`, `PolicyCompiler`, `PolicyCorrectness`, `PolicyTwins`, `PolicyScope` | ids, validation, a two-level Rego semantics, the compiler, what its modules mean, when that is what the policy means, which policies compile and which rules count |
| `Capabilities`, `ShippedPolicy` | the policy that ships with the proxy |
| `CacheKey`, `DecisionCache`, `PolicyEngine`, `EngineRuns`, `EvalTime` | the decision cache and the engine around it, under every interleaving of its calls |
| `SessionManager`, `SessionExcess`, `SessionCalls`, `SessionStore` | sessions: every interleaving, how far the limit can be exceeded, whole calls, and the methods one after another |
| `AuditWriter`, `AuditRuns`, `AuditOrder`, `WriterLocks` | the audit buffer: conservation, order, stopping, deadlock |
| `EventStream`, `UpstreamClient`, `UpstreamDelivery` | event-stream framing, response matching and delivery |
| `Routing`, `ObjectPool`, `RouterPool`, `Enforcement` | routing with fresh objects, object pools, routing with pooled objects, and router, engine, cache and shipped policy together |

How the models are built:

- The compiler's output is a sequence of tokens, and `ParseBody` is Rego's reading of it. Lines are
  conjoined, `not` applies to one expression, and parentheses hold one expression. The comments in
  compileAny say that its branches are joined by "or"; the code joins them by newlines, and the model
  follows the code. The exact class of expressions that compile correctly is `Faithful`, and
  `FaithfulIffExact` proves both directions.
- Field paths and the words of comments are pasted into the module without quotes. What Rego makes of
  a module is defined here only when they are plain: paths of dotted identifiers, and no line break in a
  comment (`PlainPolicy`). Otherwise it is an arbitrary parameter, and the theorems about modules ask for
  plain text. `PastedText` shows a validated condition whose pasted path makes Rego read something else.
- The compiler is judged against a reading of the policy's JSON that does not go through it: `JsonHolds`
  goes by keys and operator names, `Covers` by concatenation, `Triggers` by rule types and members, and
  the `enabled` flag is spelled out. `ReadMeans`, `MatchesIff` and the theorems about modules compare the two.
- A generated module is a sequence of rules. Helper rules look only at the input, other rules may look
  at helpers. `CompiledIsStratified` shows that this two-level reading loses nothing.
- Concurrent components are state machines. A step is one access to shared state under its lock, or
  one channel or pool operation; a trace is any interleaving of any number of threads. The theorems
  are about every trace. Beside them, classes with the source's own fields and loops carry the
  sequential contracts.
- OPA, the clock, the hash, JSON decoding, the policy evaluator and the upstream server are parameters.

Properties that the code does not have in general come with the exact condition under which they hold,
and with inputs or runs for the rest: multi-branch `any`, `not` over several lines and parts that write
nothing (`FaithfulIffExact`), the order of Go's maps (`OrderShowsIff`), rules that share a helper
(`CompiledPolicyCorrectIff`), fractional limits (`LimitTruncation`, `CutLimitMisreported`), outdated
cached decisions (`CurrentIff`), a cache that shows at all (`TransparentIff`; the shipped policy's does,
`ShippedCacheShows`), the session limit (`LimitSafeIff`), the order of audit rows (`InOrderIff`),
deadlock (`StuckIffCrossed`), event framing (`RoundTrip`) and a Send that nobody can answer
(`StrandedIff`). A run shows that an explicit Disconnect leaves a Send waiting.

## Model

| member | source | states |
|---|---|---|
| Expressions.ParseEmit | internal/policy/compiler/expression.go:24-162 | Rego's reading of the text emitted for any tight expression, followed by any further lines, is the expression's literals by structure followed by those lines' |
| Expressions.ParseWhole | internal/policy/compiler/expression.go:20-162 | the emitted lines parse to exactly the structural reading, and text that is written and parses holds a literal, negated iff the text starts with `not` |
| Expressions.ParseBranch | internal/policy/compiler/expression.go:140-146 | a parenthesised `any` branch parses iff it is one un-negated literal |
| ExpressionMeaning.FaithfulIsExact | internal/policy/compiler/expression.go:24-162 | for every nested expression with single-branch `any` and single-literal `not`, the parsed body is true iff the source expression is, under every truth assignment |
| ExpressionMeaning.AnyIsOnlyTooStrict | internal/policy/compiler/expression.go:106-147 | with multi-branch `any` of single-literal branches outside `not`, truth of the emitted body implies truth of the source |
| ExpressionMeaning.AnyIsTooStrict | internal/policy/compiler/expression.go:140-146 | conversely every such expression that is not faithful has an assignment that the author meant to match and the emitted body rejects |
| ExpressionMeaning.FirstNegationFails | internal/policy/compiler/expression.go:149-162 | `not` over two or more lines always differs from negation on some assignment |
| ExpressionMeaning.ExactIsFaithful | internal/policy/compiler/expression.go:24-162 | an expression with distinct tests whose literals mean the source under every assignment is faithful |
| ExpressionTight.ExactIsTight | internal/policy/compiler/expression.go:24-162 | no expression with distinct tests whose parts write nothing, wherever they stand, has text that means what was written: only tight expressions do |
| ExpressionTight.FaithfulIffExact | internal/policy/compiler/expression.go:24-162 | for every expression with distinct tests the compiler preserves meaning if and only if the expression is faithful |
| ExpressionMeaning.DanglingNegation | internal/policy/compiler/expression.go:149-162 | a `not` whose operand writes nothing negates the following line, so the text parses to something the author did not write |
| ExpressionReader.ValidatedNeverPanics | internal/policy/compiler/validation.go:190-252 | an expression the validator accepts never reaches the compiler's unchecked type assertion at any depth, and the only errors left are those the validator does not look for |
| AuthorReading.ReadMeans | internal/policy/compiler/expression.go:24-330 | the compiler's reading of every condition it can read, at any depth, holds of exactly the inputs that the JSON holds of: each operator name, `tool_in` and `agent_in` with their fields, the three field maps, the direct comparison, `all`, `any` and `not` |
| AuthorReading.ReadIff | internal/policy/compiler/expression.go:24-330 | the compiler reads a condition if and only if each object it uses has lists, objects, patterns and operator names where its keys ask for them |
| AuthorReading.ReadableIsValid | internal/policy/compiler/validation.go:190-252 | the validator rejects nothing that the compiler reads, unless it looks at a key that the compiler ignores |
| AuthorReading.OperatorMeans | internal/policy/compiler/expression.go:233-270 | every operator name compares as it says: order, equality, substrings by concatenation, patterns and membership |
| IterationOrder.OrderIrrelevant | internal/policy/compiler/expression.go:172-218 | for settled conditions any two iteration orders of the Go maps give texts that parse alike and mean the same; settled asks for one field path only where the path decides, and under `not` only that the first line is no choice among a field map's members |
| OrderExact.OrderShowsIff | internal/policy/compiler/expression.go:24-218 | a condition that is tight, parses and has distinct printable tests reads the same in every iteration order if and only if it is settled |
| IterationOrder.TwoPathsAmbiguous | internal/policy/compiler/expression.go:74-79 | for any two field paths in one object, the two orders of the same map read as different comparisons that some input tells apart |
| IterationOrder.NegatedMapAmbiguous | internal/policy/compiler/expression.go:149-179 | for any two members of a field map under `not`, the two orders of the same map emit bodies that some input tells apart |
| RegoTests.EmitValueExact | internal/policy/compiler/expression.go:287-313 | a literal reaches Rego unchanged iff each of its numbers has at most six decimals |
| RegoTests.RenderMeans | internal/policy/compiler/expression.go:221-284 | an emitted comparison on a plain path, as Rego evaluates it, holds of exactly the inputs the JSON comparison holds of |
| RegoTests.PathTermMeans | internal/policy/compiler/expression.go:279-284 | the reference emitted for a plain path finds what the path names, with or without the `input.` prefix |
| PastedText.CommentSwallows | internal/policy/compiler/expression.go:279-284 | after a comment sign outside quotes in a field path, operator and value never reach Rego, whatever they are |
| PastedText.PastedIsValid | internal/policy/compiler/validation.go:190-252 | the validator accepts a condition whose path carries a comparison of its own and a comment sign, and the compiler compiles it |
| PastedText.PastedLine | internal/policy/compiler/expression.go:238-239 | what Rego keeps of that condition's line is the other comparison of the field |
| PastedText.PastedPathMisread | internal/policy/compiler/expression.go:279-284 | on some input that comparison holds and the author's does not |
| PastedText.CommentBreaksOut | internal/policy/compiler/templates.go:65-122 | a line break in a comment's words makes what follows part of the module |
| PastedText.CommentStays | internal/policy/compiler/templates.go:65-122 | words without a line break stay in the comment |
| RegoTests.SmallThresholdLost | internal/policy/compiler/expression.go:297-301 | a threshold below the sixth decimal is printed as zero |
| LiteralPrinter.QuoteRoundTrip | internal/policy/compiler/templates.go:27-29 | every string is recovered from its quoted form whatever follows it |
| LiteralPrinter.PrintDenotes | internal/policy/compiler/expression.go:287-313 | the printed text of every printable literal, read by that parser, is the value that the compiler's theorems work with, numbers rounded to six decimals included |
| LiteralPrinter.ValueRoundTrip | internal/policy/compiler/expression.go:287-313 | a parser recovers every nested array of strings, booleans, nulls and numbers of at most six decimals from its printed form, inside and outside int64, whatever follows it |
| LiteralPrinter.PrintInjective | internal/policy/compiler/expression.go:287-313 | distinct such values never print alike |
| LiteralPrinter.QuoteSlice | internal/policy/compiler/templates.go:31-42 | the loop prints the list as the value printer does, and the parser recovers every string of it |
| RuleIds.SanitizeRuleId | internal/policy/compiler/capability.go:61-75 | the builder loop computes the sanitized name that the lemmas below describe |
| RuleIds.SanitizeMeans | internal/policy/compiler/capability.go:61-75 | the name is the letters, digits, underscores and hyphens of the id, hyphens as underscores, without leading digits |
| RuleIds.SanitizeLegal | internal/policy/compiler/capability.go:61-75 | for every string the result is empty or a legal Rego identifier |
| RuleIds.SanitizeIdempotent | internal/policy/compiler/capability.go:61-75 | sanitizing twice is sanitizing once |
| RuleIds.SanitizeValid | internal/policy/compiler/capability.go:61-75 | validated ids keep their length and change only hyphens |
| RuleIds.SanitizeCollision | internal/policy/compiler/capability.go:61-75 | two validated ids collide iff they differ only by hyphen against underscore |
| RuleIds.HelperNamesCollide | internal/policy/compiler/templates.go:65-138 | two helper heads are equal iff the rules have one type and ids that differ only by hyphens |
| RuleIds.HelperNamesFresh | internal/policy/compiler/compiler.go:143-163 | no helper head is a name the module itself defines, except the capability rule called `capability` |
| Policy.Validator.ValidateRule | internal/policy/compiler/validation.go:50-80 | accepts exactly the valid rules with a new id and remembers the id |
| Policy.Validator.Validate | internal/policy/compiler/validation.go:22-48 | accepts exactly the valid policies, whatever an earlier validation left in the validator |
| Policy.ValidRuleIff | internal/policy/compiler/validation.go:50-188 | a rule is accepted if and only if its id is a letter followed by letters, digits, underscores and hyphens and its conditions have the members that its type asks for, each with a value of the right kind |
| Policy.StrongerAgentHolds | internal/policy/compiler/templates.go:69-74 | an agent with more or stronger capabilities passes every capability rule the weaker one passes |
| PolicyCompiler.GroupRulesByType | internal/policy/compiler/compiler.go:111-119 | each group is the subsequence of enabled rules of its type, and only non-empty groups exist |
| PolicyCompiler.CompileRules | internal/policy/compiler/capability.go:9-58 | the builder loop yields the concatenation of the rules' emissions or the first error |
| PolicyCompiler.Compile | internal/policy/compiler/compiler.go:25-108 | the method's result is the specification of validating, grouping in fixed order, emitting and parsing that the theorems are about, with Rego's reading left open where text is not plain |
| PolicyCorrectness.LimitTruncation | internal/policy/compiler/ratelimit.go:58-69 | the truncated limit cuts off the same counts as the JSON limit iff the limit is a whole number in int64 range |
| PolicyCorrectness.ModuleMember | internal/policy/compiler/compiler.go:25-119 | a rule is in the module iff some enabled policy rule emitted it, despite filtering, regrouping and reordering |
| PolicyCorrectness.HelperMeans | internal/policy/compiler/templates.go:65-138 | in the whole module a rule's helper is true iff the JSON condition of some enabled rule with the same type and hyphen-equal id is, or it is the defaulted `capability_check` |
| PolicyCorrectness.CompiledPolicyMeans | internal/policy/compiler/compiler.go:25-119 | for every validated policy whose rules' own texts are exact and every input, the violations are those of the rules not disabled, read directly and judged by their merged helpers, `allow` likewise, and `blocked` is exactly the policy's |
| PolicyCorrectness.CompiledPolicyIsSound | internal/policy/compiler/compiler.go:25-119 | when custom conditions may also use multi-branch `any`, the module raises only such violations and allowances, and `blocked` stays exact |
| PolicyCorrectness.CompiledIsStratified | internal/policy/compiler/templates.go:65-138 | in every module every name a body refers to is defined by rules on the input alone |
| PolicyTwins.MisreportedIff | internal/policy/compiler/templates.go:65-138 | on one input a capability rule is wrongly silent iff it fires and a twin is satisfied or its id is `capability`; any other rule is wrongly loud iff a twin triggers and it does not |
| PolicyTwins.ViolationsRightIff | internal/policy/compiler/compiler.go:25-119 | on one input the module's violations are the policy's iff no enabled rule is misreported, for distinct messages |
| PolicyTwins.AllowRightIff | internal/policy/compiler/templates.go:120-138 | on one input `allow` is right iff an allowing rule triggers or no twin of one does |
| PolicyTwins.AlwaysRightIff | internal/policy/compiler/capability.go:61-75 | a rule is reported rightly on every input iff its id is not the defaulted one and each twin is harmless: another tool or a stronger capability, a subset of the block list, a limit at least as high for the same agents |
| PolicyTwins.CutLimitMisreported | internal/policy/compiler/ratelimit.go:58-69 | an enabled rate limit that is not a whole number in int64 range is reported by the compiled module on some input on which the policy is silent about it |
| PolicyTwins.CompiledPolicyCorrectIff | internal/policy/compiler/compiler.go:25-119 | for every validated policy with exact rule texts and distinct messages, the module's violations are the messages of the enabled rules that fire, on every input, if and only if all twins are harmless and no capability rule is called `capability` |
| PolicyTwins.CompiledPolicyIsCorrect | internal/policy/compiler/compiler.go:25-119 | under that condition violations and `blocked` are exactly the policy's, and `allow` too when no allowing rule has a twin |
| PolicyScope.CompilesIff | internal/policy/compiler/compiler.go:25-108 | a policy with plain text compiles if and only if it is valid and every custom condition not disabled can be read and its text is a Rego body |
| PolicyScope.ExactCompilesIff | internal/policy/compiler/compiler.go:25-108 | for exact rule texts that is: every such condition can be read and compares something |
| PolicyScope.LiveRulesDecide | internal/policy/compiler/compiler.go:111-119 | two valid policies with the same rules after deleting disabled ones and flags compile to the same module |
| PolicyScope.AbsentFlagIsTrue | internal/policy/compiler/schema.go:26-31 | writing `enabled: true` where the flag is absent changes nothing |
| PolicyScope.DisabledRulesVanish | internal/policy/compiler/compiler.go:111-119 | deleting disabled rules changes nothing while a rule is left, and a policy of disabled rules gives an empty module |
| PolicyScope.UnflaggedRuleReports | internal/policy/compiler/schema.go:26-31 | under the conditions of CompiledPolicyIsCorrect a firing rule without a flag has its message among the violations |
| Capabilities.MatchesTransitive | policies/capability.rego:28-43 | capability matching is transitive |
| Capabilities.MatchesAntisymmetric | policies/capability.rego:28-43 | capability matching is antisymmetric |
| Capabilities.StarIsTop | policies/capability.rego:40-43 | `*` matches everything and only `*` matches it |
| Capabilities.MatchesIff | policies/capability.rego:28-43 | a granted string matches if and only if it is the required one, is `*`, or is `p:*` where the required one is `p:` with anything after it |
| ShippedPolicy.RateLimitSingleValued | policies/rate_limit.rego:12-26 | get_rate_limit gives one value iff no `false` stands where the limit is looked up, and then it is the agent's, the default or 1000 |
| ShippedPolicy.DecisionCoherent | policies/main.rego:19-35 | allow iff no violations iff matched_rule is "allowed"; "default_deny" is unreachable |
| ShippedPolicy.MatchedRuleNamesViolation | policies/main.rego:27-35 | matched_rule names the gravest violation reported: a block, else an exceeded limit, else missing capabilities alone |
| ShippedPolicy.AllowMeans | policies/main.rego:19-23 | the decision equals a direct reading of the policy data, with capabilities matched by concatenation |
| ShippedPolicy.ViolationsMean | policies/blocklist.rego:27-44 | each violation is reported exactly when data and input say so, with their agent, tool, capability, count and limit |
| ShippedPolicy.AllowIsMonotone | policies/capability.rego:17-43 | more or stronger capabilities, fewer requests and shorter block lists never turn an allow into a deny |
| ShippedPolicy.CountOverturnsAllow | policies/rate_limit.rego:29-38 | the request count, which the cache key does not contain, overturns every allow |
| CacheKey.KeyIsCanonical | internal/policy/cache.go:119-128 | the key is the same for every permutation of the capabilities |
| CacheKey.KeyIsInjective | internal/policy/cache.go:119-128 | for colon-free agents, comma-free non-empty capabilities and no hash collision, equal keys force equal agent, tool and capability multiset |
| CacheKey.KeyCollisions | internal/policy/cache.go:125-127 | without those conditions keys collide, whatever the hash: moved colons, commas in capabilities, empty capabilities |
| DecisionCache.CleanupInvisible | internal/policy/cache.go:199-210 | removing any expired entries changes no later lookup |
| DecisionCache.Cache.constructor | internal/policy/cache.go:43-64 | an empty cache with the configured or default lifetime and capacity |
| DecisionCache.Cache.Get | internal/policy/cache.go:67-84 | returns the entry iff its expiry lies strictly ahead, and counts one hit or miss |
| DecisionCache.Cache.EvictOldest | internal/policy/cache.go:163-186 | leaves room for one entry for every capacity of at least one, drops live entries only when expired ones do not suffice, and then exactly a tenth of the capacity but at least one |
| DecisionCache.Cache.Set | internal/policy/cache.go:87-104 | stores the entry, changes no other, never exceeds the capacity, and keeps inserted = live + evicted + invalidated |
| DecisionCache.Cache.Invalidate | internal/policy/cache.go:107-115 | empties the cache and keeps the accounting |
| DecisionCache.Cache.Cleanup | internal/policy/cache.go:199-210 | leaves exactly the unexpired entries and keeps the accounting |
| PolicyEngine.RunIsRecorded | internal/policy/engine.go:125-171 | in every run of interleaved calls every entry is the answer its query gave to an input with that key, stamped with its expiry |
| PolicyEngine.CurrentIff | internal/policy/engine.go:62-171 | in every run of interleaved calls the cache holds only decisions of the installed query throughout iff no step stores an answer of an older query and no step installs a new query beside cached entries |
| PolicyEngine.OrderlyIsCurrent | internal/policy/engine.go:105-171 | so it does when loads find an empty cache, nothing is stored while an installation is pending and no stored answer is older than the installed query |
| PolicyEngine.SerialIsCurrent | internal/policy/loader.go:204-211 | calls one after another, with every LoadPolicies on an empty cache, as right after SetPolicyData, keep it so |
| PolicyEngine.HitsAreCurrent | internal/policy/engine.go:143-151 | in a current state each hit is a decision that the installed query gave to an input with the same key, stored less than one TTL ago |
| PolicyEngine.CacheIsTransparent | internal/policy/engine.go:125-171 | if the installed query's answer depends only on the key, in a current state the engine returns what it would without a cache |
| EngineRuns.TransparentIff | internal/policy/engine.go:62-171 | every current state that a caching engine reaches with a given query answers as it would without a cache if and only if inputs with one key never get two answers from that query |
| EngineRuns.LookUpEnds | internal/policy/engine.go:143-151 | an interleaved Evaluate ends at its look-up exactly when the engine is disabled or an entry under the key has not expired |
| EngineRuns.AnswerIsKept | internal/policy/engine.go:143-171 | after an evaluation any input with that key gets its answer until the lifetime is over, and is asked again from then on |
| EngineRuns.NewDataDecides | internal/policy/engine.go:105-122 | right after SetPolicyData every answer is the one of the modules with the new data, or of the old query if that does not compile, and nothing is cached |
| EngineRuns.NewModulesDecide | internal/policy/engine.go:62-102 | right after LoadPolicies on an empty cache every answer is the one of the new modules, or of the old query |
| EngineRuns.OverlapServesStale | internal/policy/engine.go:105-171 | from every new engine a run in which an evaluation stores its answer after a SetPolicyData that began later, and the old decision is served |
| EngineRuns.WindowServesStale | internal/policy/engine.go:110-121 | the same with a whole evaluation between SetPolicyData's emptying of the cache and its installation |
| EngineRuns.ReloadServesStale | internal/policy/engine.go:62-71 | the same with LoadPolicies on a warm cache and no overlap |
| EngineRuns.SetDataAlone | internal/policy/engine.go:105-122 | the steps of an uninterrupted SetPolicyData have the effect that the method below has |
| EngineRuns.LoadAlone | internal/policy/engine.go:62-102 | likewise LoadPolicies |
| EngineRuns.EvaluateAlone | internal/policy/engine.go:125-171 | likewise Evaluate, with any eviction |
| EngineRuns.Engine.LoadPolicies | internal/policy/engine.go:62-102 | the method refines the uninterrupted steps of LoadPolicies, also when compilation fails |
| EngineRuns.Engine.SetPolicyData | internal/policy/engine.go:105-122 | the method refines the uninterrupted steps of SetPolicyData |
| EngineRuns.Engine.Evaluate | internal/policy/engine.go:125-171 | the method refines the uninterrupted steps of Evaluate and returns the cached decision or the query's answer |
| EvalTime.Timer.UpdateAvgEvalTime | internal/policy/engine.go:277-285 | the field stays the average of all samples seen, lies between any bounds of theirs, and no intermediate value leaves int64 |
| EvalTime.AverageBounded | internal/policy/engine.go:277-285 | after any non-empty run the average lies between the least and the greatest sample |
| EvalTime.NoOverflow | internal/policy/engine.go:283 | samples of at most (2^63-1)/100 never overflow int64 |
| EvalTime.GapShrinks | internal/policy/engine.go:277-285 | under a constant sample the gap strictly shrinks until it is between 0 and 9, and stays there |
| EvalTime.GapOfNineLasts | internal/policy/engine.go:277-285 | the bound of 9 is attained: from nine below a constant sample the average never moves |
| EvalTime.AverageConverges | internal/policy/engine.go:277-285 | after as many updates as the initial gap the average has settled |
| SessionManager.StepKeepsInv | internal/session/manager.go:107-219 | every step of any thread keeps the mutex discipline and the balance of map, counter, pending decrements and creations |
| SessionManager.SessionLimit | internal/session/manager.go:107-219 | under every interleaving, sessions plus pending decrements = counter + uncounted session + removals that found nothing, so the map exceeds the limit by at most the latter |
| SessionManager.SessionLimitExact | internal/session/manager.go:107-175 | without cleanup, or with a cleanup that checks and removes in one step, the map never exceeds the limit |
| SessionExcess.ExcessIsReached | internal/session/manager.go:107-219 | every reachable state extends, without a further missed removal, to as many sessions over the limit as removals have found nothing so far: the bound is attained |
| SessionExcess.LimitSafeIff | internal/session/manager.go:107-219 | after any run the limit holds in every continuation without a further missed removal iff no removal has missed so far |
| SessionExcess.CleanupRaceExceedsLimit | internal/session/manager.go:204-219 | for every limit and every number a run with Deletes between cleanup's check and removal ends that many sessions over the limit |
| SessionCalls.CreateAlone | internal/session/manager.go:107-136 | the uninterrupted steps of Create add one session and count it below the limit, and change nothing at it |
| SessionCalls.DeleteAlone | internal/session/manager.go:160-175 | those of Delete remove, close and count out the session if it is there |
| SessionCalls.GetAlone | internal/session/manager.go:139-157 | those of Get do so to a closed session and nothing to an open one |
| SessionCalls.SweepAlone | internal/session/manager.go:204-247 | those of cleanup do so to a session it finds due |
| SessionStore.Manager.constructor | internal/session/manager.go:47-63 | a zero lifetime or limit becomes two hours or 10000, and the manager starts empty |
| SessionStore.Manager.Create | internal/session/manager.go:107-136 | succeeds iff fewer sessions than the limit exist, adds exactly one, and keeps the counter equal to the number of sessions |
| SessionStore.Manager.Get | internal/session/manager.go:139-157 | returns exactly the open sessions and deletes a closed one |
| SessionStore.Manager.Delete | internal/session/manager.go:160-175 | removes and closes the session if present and nothing else |
| SessionStore.Manager.IncrementRequestCount | internal/session/manager.go:178-184 | counts a request of an open session and touches it, and returns zero for any other |
| SessionStore.Manager.Cleanup | internal/session/manager.go:201-252 | keeps exactly the open sessions at most one lifetime old and active at most half a lifetime ago, and closes the others |
| SessionStore.SurvivesIff | internal/session/manager.go:213-247 | the same for every single session, and with a negative lifetime none survives |
| SessionStore.CleanupIsMonotone | internal/session/manager.go:201-252 | an earlier cleanup never changes what a later one leaves |
| AuditWriter.StepMoves | internal/audit/writer.go:77-153 | each step of Write and flush moves records between buffer, batch, rows and losses without creating or losing any |
| AuditWriter.GoKeepsBounded | internal/audit/writer.go:77-99 | every step keeps the buffer within its bound and a suffix of what was accepted |
| AuditWriter.RunKeepsInv | internal/audit/writer.go:77-201 | at every point of every run accepted = stored + lost + in flight + buffered record by record, written and dropped lag the rows and losses by exactly what flushers still owe, and the buffer is a bounded suffix of what was accepted |
| AuditRuns.StopAccountsForAll | internal/audit/writer.go:101-176 | when the last flush begins with no Write under way, none begins later and all threads finish, written + dropped is the number of records accepted |
| AuditRuns.IdleAccounts | internal/audit/writer.go:77-153 | whenever all threads are idle the counters are exact |
| AuditRuns.RoomyRunLosesNothing | internal/audit/writer.go:77-153 | a run of at most as many Writes as the buffer holds, in which no insert fails, loses and drops nothing |
| AuditOrder.InOrderIff | internal/audit/writer.go:125-153 | in a run that accepts each record at most once the rows are at every point an in-order subsequence of what was accepted if and only if no step stores a batch that was taken from the buffer before one already stored |
| AuditOrder.NoneLateInOrder | internal/audit/writer.go:125-153 | without such a late store the rows are in order, also when records repeat |
| AuditOrder.SeparateFlushesInOrder | internal/audit/writer.go:125-153 | while no batch is stored beside another in flight no store is late, and rows, batch and buffer together are an in-order subsequence of what was accepted |
| AuditOrder.OneFlusherNoOverlap | internal/audit/writer.go:101-122 | a single flusher never stores a batch beside another in flight |
| AuditRuns.TwoFlushersReorder | internal/audit/writer.go:125-161 | a run of two flushers whose rows are not |
| AuditRuns.WriteAlone | internal/audit/writer.go:77-99 | an uninterrupted Write has the effect of the sequential specification |
| AuditRuns.FlushAlone | internal/audit/writer.go:125-156 | an uninterrupted flush has the effect of the sequential specification, whether its insert succeeds or fails |
| AuditRuns.Writer.constructor | internal/audit/writer.go:43-64 | a buffer size of zero or less becomes 100 |
| AuditRuns.Writer.Write | internal/audit/writer.go:77-99 | the method refines the sequential specification of Write |
| AuditRuns.Writer.Flush | internal/audit/writer.go:125-156 | the method refines the sequential specification of flush |
| WriterLocks.StuckIffCrossed | internal/audit/writer.go:77-201 | no thread can move iff an overflowing Write and a Stats hold one mutex each and wait for the other, and everyone else waits too |
| WriterLocks.CrossedForever | internal/audit/writer.go:187-194 | the two calls never move again, whatever the others do |
| WriterLocks.WritersNeverStuck | internal/audit/writer.go:77-153 | with any number of Write and flush threads some step is always enabled until all have finished |
| WriterLocks.WorkRunsOut | internal/audit/writer.go:77-153 | once calls stop coming every schedule is finite, bounded by the work outstanding |
| WriterLocks.WritersFinish | internal/audit/writer.go:77-153 | a schedule of Writes and flushes that cannot continue has finished them all |
| WriterLocks.StatsCanDeadlock | internal/audit/writer.go:187-194 | for every buffer size a run of one writer and one Stats gets stuck |
| EventStream.SendEvent | internal/transport/sse/handler.go:235-244 | the step-by-step writer appends the printed event |
| EventStream.ReadEvents | internal/upstream/client.go:245-283 | the read loop dispatches the events of the stream's specification |
| EventStream.ReadOneEvent | internal/upstream/client.go:245-283 | reading a printed event dispatches it and leaks no field into what follows |
| EventStream.ReadIsWellFormed | internal/upstream/client.go:264-283 | whatever the stream, only trimmed single-line non-empty events are dispatched |
| EventStream.FieldLineRead | internal/upstream/client.go:264-283 | in any stream an `event:` or `data:` line sets that field to its value, with or without spaces around either |
| EventStream.OtherLineIgnored | internal/upstream/client.go:264-283 | any other non-blank line changes nothing |
| EventStream.BlankLineDispatches | internal/upstream/client.go:266-274 | a blank line dispatches what was collected, if anything, and starts over |
| EventStream.RoundTrip | internal/transport/sse/handler.go:235-244 | reading the printed sequence gives it back iff every event is newline-free, trimmed and not empty |
| UpstreamClient.ResponsesMatch | internal/upstream/client.go:150-198 | in every run data a Send returns carries its own id, was looked up after it registered and was meant for it, and no two Sends return one arrival |
| UpstreamClient.ReceivesOnce | internal/upstream/client.go:187-198 | a Send takes at most one outcome from its channel, and exactly one when it returns data |
| UpstreamDelivery.ResponseIsReturned | internal/upstream/client.go:301-321 | from every state: a message looked up for a Send that waits in the table can be delivered at any time, then fills the Send's channel, and whatever happens next the Send waits with it or has returned it, unless a timeout or failed post of its own came |
| UpstreamDelivery.ChannelIsReturned | internal/upstream/client.go:187-198 | a Send that awaits a filled channel can take it and then returns it |
| UpstreamDelivery.NothingLost | internal/upstream/client.go:301-321 | in every run a response looked up for a Send and no longer in the reader's hands has filled the Send's channel, unless the Send has ended |
| UpstreamDelivery.ResponseFollowsRequest | internal/upstream/client.go:150-198 | in every run the response a Send returns has its id and was looked up after the Send registered |
| UpstreamDelivery.SendEnds | internal/upstream/client.go:137-198 | in every run a Send ends by timeout, failed post, a received outcome or unregistered exactly when it took that step, and only responses and disconnections are received |
| UpstreamDelivery.RefusedIff | internal/upstream/client.go:137-144 | a Send is refused if and only if a Disconnect or a lost connection came before it |
| UpstreamDelivery.LossIsReported | internal/upstream/client.go:334-353 | when a connection is lost that nobody has disconnected, the reader's own steps empty the table and tell every Send in it that has nothing yet that it is disconnected |
| UpstreamClient.StrandedIff | internal/upstream/client.go:150-198 | at every point of a run every registered Send is in the pending table or has a filled channel, if and only if no step registers or cleans up an id whose entry is another Send still waiting with an empty channel |
| UpstreamClient.NobodyStranded | internal/upstream/client.go:157-167 | with distinct ids in flight no step does so, and every registered Send is in the pending table under its id or has a filled channel |
| UpstreamClient.DrainServesAll | internal/upstream/client.go:334-353 | when a drain ends and no Send was cut off so, every Send registered by then has an outcome waiting |
| UpstreamClient.LateSendGetsNothing | internal/upstream/client.go:137-167 | a Send unanswered when the reader has stopped never receives anything |
| UpstreamClient.DisconnectLeavesWaiting | internal/upstream/client.go:113-134 | an explicit Disconnect makes the reader stop without draining, leaving a registered Send to time out |
| UpstreamClient.DuplicateIdsStrand | internal/upstream/client.go:163-167 | with one id in flight twice a Send can wait outside the table with an empty channel |
| Routing.ReservedCheckIsDead | internal/router/parser.go:51-94 | a request is accepted iff version, length and name format are right; the test for reserved names decides nothing |
| Routing.RoutedIff | internal/router/parser.go:30-170 | a message reaches its handler if and only if it decodes, has version 2.0, a method name of the right form and at most 256 characters, and the parameters that tools/call and resources/read need; the request is then what was decoded |
| Routing.UnenforcedPasses | internal/router/types.go:150-214 | every method but tools/call, resources/read and resources/subscribe is forwarded whatever the evaluator, its reply is the upstream's, and it is audited unless it is ping or notifications/initialized |
| Routing.UndeniedIsForwarded | internal/router/router.go:176-235 | an enforced method that is not denied in enforce mode, or that there is no evaluator for, gets the upstream's answer |
| Routing.ViewDescribesRequest | internal/router/router.go:138-170 | evaluator and audit see the tool, arguments, resource and token of the request itself |
| Routing.DeniedIsSealed | internal/router/router.go:176-203 | tools/call, resources/read or resources/subscribe denied in enforce mode is refused under its own id with the decision's violations, and its outcome does not depend on the upstream |
| Enforcement.OnlyAllowedReachUpstream | cmd/proxy/main.go:246-274 | through router, engine and cache in enforce mode: if the outcome of tools/call, resources/read or resources/subscribe depends on the upstream, the request was well formed and the installed policy allows an input with the same key |
| Enforcement.DeniedNeverReachesUpstream | cmd/proxy/main.go:246-274 | such a request that the shipped policy denies for its agent, tool or capabilities is refused and audited in every current state of the engine, whatever is cached and whatever the upstream is |
| Enforcement.ToolCallDecided | cmd/proxy/main.go:246-274 | a tool call not answered from the cache is forwarded if and only if the tool named in its parameters and the agent are not blocked, the agent has a capability for the tool and the count is below the limit; otherwise it is refused with the policy's violations |
| Enforcement.ToolCallRefused | cmd/proxy/main.go:246-274 | blocked tools, blocked agents and missing capabilities are refused from the cache too |
| Enforcement.PermissiveForwards | internal/policy/engine.go:133-141 | in any other mode, or with the engine disabled, whatever can be evaluated is forwarded |
| Enforcement.KeysUnmixed | internal/policy/cache.go:119-128 | the key condition that this needs follows from colon-free agents, plain capabilities and no hash collision |
| Enforcement.OverLimitIsForwarded | internal/policy/cache.go:119-128 | once an allowed request is cached, as the engine's own Evaluate does, the same agent, tool and capabilities are forwarded at any request count, also one that the policy denies |
| Enforcement.ShippedIsNotKeyed | policies/rate_limit.rego:29-38 | whenever the shipped policy allows anything, its answers do not depend on the key alone |
| Enforcement.ShippedCacheShows | internal/policy/cache.go:119-128 | so under it some current state that the engine reaches answers an input differently than without the cache |
| ObjectPool.TakeIsSound | internal/router/types.go:36-43 | taking an object, old or new, keeps every object held by one call or free once |
| ObjectPool.GiveIsSound | internal/router/types.go:46-50 | so does returning it |
| RouterPool.PoolingIsTransparent | internal/router/router.go:64-136 | under every interleaving and whatever the pools held, a finished Route has the result of one that allocates fresh objects |
| RouterPool.NeverShared | internal/router/types.go:36-50 | no Request or RequestContext is held by two calls, or held and free |
| RouterPool.AllReturned | internal/router/parser.go:30-101 | when all calls have finished, on whatever paths, every object is back in its pool exactly once |
| RouterPool.NeverBlocked | internal/router/types.go:248-288 | an unfinished call can always take its next step, Release included |

## Left out

- OPA's parsing, linking and evaluation, and the conversion of its result to a decision: the emitted subset has its own small semantics, and the engine's query is a parameter.
- Rego's reading of modules with pasted text that is not plain (bracketed paths, operators, line breaks in comments): an arbitrary parameter of the compiler model.
- Message placeholders, descriptions, headers and comments: a rule's message is an arbitrary string.
- `violations[msg]` is read as the set of its keys; `rate_limit_ok` is emitted but no theorem uses it, because its own default makes it true.
- Escapes that `%q` writes and Rego does not read (`\x`, `\a`, `\v`, `\U`): the round trip is against the project's own parser.
- Loading generated modules together with the shipped policy, where defaults clash.
- PolicyTwins.CompiledPolicyCorrectIff: for rules whose own texts are exact; what that takes is settled rule by rule by LimitTruncation, FaithfulIffExact and EmitValueExact. For custom twins the condition is that one condition implies the other.
- PolicyTwins.AlwaysRightIff: Rego's regular expressions are any predicate, so two different agent patterns count as different agents.
- ExpressionTight.FaithfulIffExact: tests are pairwise distinct; equal tests may cancel an error, as a branch repeated under `any` does.
- Policy.ValidRuleIff: objects have distinct keys, as decoded maps do.
- PolicyScope.LiveRulesDecide: a rule's message does not depend on its flag, as the source's does not; AbsentFlagIsTrue and DisabledRulesVanish likewise.
- IterationOrder.OrderIrrelevant: literals that contain maps are excluded, because they do not print as Rego.
- OrderExact.OrderShowsIff: for tight conditions, because other text joins lines of different members; tests are distinct, because equal lines hide a choice; no literal holds a map.
- PolicyCompiler.Compile: OPA's type checker is not part of this model, so a module with `contains(input.x, 5)` compiles here.
- Shipped policy data where get_rate_limit gives two values is an evaluation error in OPA; DecisionCoherent covers it only as the model reads it.
- PolicyEngine: taking the engine's mutex and reading the data under it are one step; counters are left out of the interleaved model.
- Manager.Stop, List and the session's message channel; a manager's session objects are values, so aliasing of a session held by a caller is not captured.
- SessionManager: cleanup's check and its Close are one step; Range sees the map as it is at each visit.
- Audit store: an insert succeeds or fails as a whole; a commit that fails after taking effect is not captured, nor are the flush signal and the ticker, since a flush may begin at any time.
- UpstreamClient: one connection and its reader; reconnecting, request ids that are arrays or objects, SendAsync and the endpoint event are not part of this model, and an arrival is the moment the reader looks up the id.
- Router: handleFilter's filtering, which the source does not implement; timestamps of violation data; the pools of random bytes and encoder buffers.
- RouterPool: sync.Pool is modelled on values, as a map of objects and a multiset of free ones, so Go's memory model is not captured.
- HTTP, stdio, SQLite, metrics, logging, configuration and data races on plain counters.
