# Procedural city: L-system engine and its clients, in Dafny

This project models the CPU-side core of a procedural city and tree generator written in TypeScript for WebGL.

At its centre is a small stochastic L-system engine, modelled in `lsystem.dfy`, `execution.dfy`, `rewriting.dfy` and `replay.dfy`:

- **Grammar set-up.** A grammar keeps one rule set per source symbol. Each rule set carries a running `totalWeight`.
- **Selection.** A rule is chosen by a weighted roulette over one noise draw.
- **Rewriting.** `construct` rewrites the working string in place, generation by generation. It then records a `maxDepth` by a peculiar bracket scan.
- **Replay.** `process` replays the final string left to right against a fresh execution scope. That scope holds a depth counter and a linked stack (`stack.dfy`) of saved turtles; `[` and `]` are the built-in save and restore handlers.

Two clients of the engine are modelled with their concrete grammars:

- `shape_grammar.dfy`: the lot-layout grammar `P -> bF{1}+P`.
- `tree_grammar.dfy`: the weighted tree grammar with its leaf handler and bracket lookahead.

Around the engine sit:

- the two noise-driven generators, weighted and affine (`rng.dfy`);
- the building blueprint loader that configures the weighted generator (`building.dfy`);
- the city's greedy lot placement (`city.dfy`);
- the array bookkeeping of three geometry builders (`mesh_instanced.dfy`, `dynamic_roof.dfy`, `line.dfy`, with `geometry.dfy`);
- the texture wrapper's power-of-two test and slot mapping (`texture.dfy`).

**How the model is built.** Everything is modelled with immutable datatypes and pure functions. Three program loops are written as methods with loop invariants and tied to their functional definitions: `canPlaceProperty`, both loops of `build`, and the assembly loop of `Line.create`.

**Values left abstract.** Noise, turtle geometry and matrices are parameters or opaque type parameters:

- noise is a function `(real, real) -> real`;
- turtles and matrices are type parameters, copied as values;
- floating-point turtle operations are fields of an operations record.

A JavaScript throw, such as reading through `undefined` or popping an empty stack, is a `Failure` of the `Result` type in `common.dfy`.

`peek` leaves the stack as it was by construction: `Peek` is a function of an immutable value.

**Behaviour of the code worth knowing before the table:**

- A rule is chosen by one roulette draw of `noise * totalWeight` over the rule set's cumulative weights. A draw that selects nothing makes the program read `expr` of `undefined`; that is the model's `NoRuleSelected` failure.
- `{`, digits and `}` in a working string are ordinary symbols: `process` skips them when they are unregistered.
- The `maxDepth` scan is not the nesting depth. Its counter is never decremented on `]`, so sibling branches make it overcount and nested ones can make it undercount; `Rewriting.MaxDepthOvercounts` and `Rewriting.MaxDepthUndercounts` exhibit both. `process` hands the recorded value to the handlers, and the tree's gravity bend divides by it.

## Model

| member | source | states |
|---|---|---|
| LinkedStack.New | src/core/ds/Stack.ts:6-8 | A fresh stack is empty. |
| LinkedStack.Push | src/core/ds/Stack.ts:10-15 | After `push(v)` the stack is non-empty, `peek` gives `v`, and the stack is one entry higher. |
| LinkedStack.Pop | src/core/ds/Stack.ts:17-21 | `pop` returns the top value and leaves a stack one entry lower; it needs a non-empty stack, since an empty one has an undefined `top`. |
| LinkedStack.PushPop | src/core/ds/Stack.ts:10-21 | `push(v)` then `pop()` returns `v` and leaves exactly the stack from before the push. |
| LinkedStack.PeekAfterPush | src/core/ds/Stack.ts:10-25 | After `push(v)`, `isEmpty()` is false and `peek()` is `v`. |
| LinkedStack.LastInFirstOut | src/core/ds/Stack.ts:10-21 | Values pushed in sequence are popped in reverse order, and the stack underneath is left as it was. |
| LSystem.EmptyRuleSet | src/core/lsystem/LSystem.ts:69-72 | A new rule set has no rules and a total of 0, which is their weight sum. |
| LSystem.AddRuleToSet | src/core/lsystem/LSystem.ts:74-77 | `addRule` appends a rule of weight 1.0; a total equal to the weight sum stays equal to it. |
| LSystem.AddWeightedRuleToSet | src/core/lsystem/LSystem.ts:79-82 | `addWeightedRule` appends a rule of weight `w`; a total equal to the weight sum stays equal to it. |
| LSystem.NewLSystem | src/core/lsystem/LSystem.ts:184-199 | A new system has no rules and no axiom, and registers exactly `[` and `]`, with the save and restore handlers. |
| LSystem.SetAxiom | src/core/lsystem/LSystem.ts:201-208 | `setAxiom(s)` makes the working string exactly `s`, whatever was there, and changes nothing else. |
| LSystem.AddSymbol | src/core/lsystem/LSystem.ts:210-213 | `addSymbol` registers or overwrites the entry of its symbol; every other symbol, the rules and the string are unchanged. |
| LSystem.AddRule | src/core/lsystem/LSystem.ts:215-223 | The rule set of `src` is created on first use and gains the rule at its end, in call order; other rule sets are unchanged, and every total stays its weight sum. |
| LSystem.AddWeightedRule | src/core/lsystem/LSystem.ts:225-233 | As `AddRule`, with weight `w`. |
| LSystem.Scan | src/core/lsystem/LSystem.ts:248-256 | The roulette loop returns the first rule whose running weight sum strictly exceeds the target; when it returns nothing, no running sum exceeds it. |
| LSystem.SelectIndex | src/core/lsystem/LSystem.ts:235-258 | A one-rule set yields rule 0 whatever the draw. Otherwise the result is the first rule whose cumulative weight exceeds `draw * totalWeight`, or nothing when none does. |
| LSystem.SelectRule | src/core/lsystem/LSystem.ts:235-259 | `selectRule` returns a rule exactly when the selection finds an index, and then returns the rule stored at that index. |
| LSystem.Pieces | src/core/lsystem/LSystem.ts:266-284 | The in-place splice replaces each symbol of the old string by one piece: one of its rules' expansions when it has a rule set, itself otherwise. Inserted symbols are not rewritten again. It fails only on a multi-rule symbol whose draw selects nothing. |
| LSystem.Generation | src/core/lsystem/LSystem.ts:264-285 | One generation gives one piece per old symbol, each a permitted replacement of that symbol. |
| LSystem.Generations | src/core/lsystem/LSystem.ts:264-285 | `iterations <= 0` leaves the string unchanged; the only failure is a rule set that selects nothing. |
| LSystem.DepthScan | src/core/lsystem/LSystem.ts:287-303 | The recorded depth never exceeds the number of `[` in the string. |
| LSystem.MaxDepthOf | src/core/lsystem/LSystem.ts:287-303 | The `maxDepth` recorded for a string is at most its number of `[`. |
| LSystem.Construct | src/core/lsystem/LSystem.ts:261-309 | Without an axiom `construct` throws. On success it records `maxDepth` for the new string, at most its count of `[`, and keeps the rules, symbols and seed. With `iterations <= 0` the string is unchanged. |
| Rewriting.SingleRuleIgnoresDraw | src/core/lsystem/LSystem.ts:239-241 | A one-rule set returns `rules[0]` for every draw. |
| Rewriting.SelectionSucceeds | src/core/lsystem/LSystem.ts:243-258 | With a positive total equal to the weight sum, every draw below 1 selects a rule. |
| Rewriting.SelectionExhausted | src/core/lsystem/LSystem.ts:243-258 | With two or more non-negative weights, a draw of 1 or more selects nothing. |
| Rewriting.PiecesSucceed | src/core/lsystem/LSystem.ts:266-284 | When every rule set can select and every draw is below 1, a generation never fails. |
| Rewriting.GenerationsSucceed | src/core/lsystem/LSystem.ts:264-285 | Under the same conditions, any number of generations succeeds. |
| Rewriting.ConstructSucceeds | src/core/lsystem/LSystem.ts:261-285 | Under the same conditions, `construct` on a grammar with an axiom succeeds. |
| Rewriting.PiecesDeterministic | src/core/lsystem/LSystem.ts:266-284 | When every rule set has one rule, the splice puts each symbol's only expansion in its place, whatever the seed and noise. |
| Rewriting.GenerationDeterministic | src/core/lsystem/LSystem.ts:264-285 | For such a grammar a generation succeeds and equals the independent one-step expansion `Expand`. |
| Rewriting.GenerationsDeterministic | src/core/lsystem/LSystem.ts:264-285 | For such a grammar `n` generations equal the `n`-fold expansion. |
| Rewriting.ConstructDeterministic | src/core/lsystem/LSystem.ts:261-285 | For such a grammar `construct(n)` succeeds and leaves the `n`-fold expansion of the axiom. |
| Rewriting.ConstructTwice | src/core/lsystem/LSystem.ts:261-285 | For such a grammar `construct(a)` then `construct(b)` leaves the string `construct(a + b)` leaves: the rewrite continues from the first result. |
| Rewriting.PiecesKeepNesting | src/core/lsystem/LSystem.ts:266-284 | If no rule rewrites a bracket and every expansion is balanced, the rewritten prefix keeps the nesting and net bracket level of the original prefix. |
| Rewriting.GenerationKeepsNesting | src/core/lsystem/LSystem.ts:264-285 | One generation with such rules keeps a well-nested string well nested, at the same net level. |
| Rewriting.GenerationsKeepNesting | src/core/lsystem/LSystem.ts:264-285 | So do any number of generations. |
| Rewriting.ConstructKeepsBalance | src/core/lsystem/LSystem.ts:261-285 | With such rules `construct` keeps a balanced string balanced, and keeps a string with every symbol inside brackets so. |
| Rewriting.MaxDepthOvercounts | src/core/lsystem/LSystem.ts:287-303 | For `[][][]`, nested one deep, the scan records 2. |
| Rewriting.MaxDepthUndercounts | src/core/lsystem/LSystem.ts:287-303 | For `[[][[]]]`, nested three deep, the scan records 2. |
| Execution.FreshScope | src/core/lsystem/LSystem.ts:96-101 | The scope `process` starts from has index 0, depth 1, an empty stack and the fresh turtle. |
| Execution.OpSaveState | src/core/lsystem/LSystem.ts:107-111 | Saving pushes an entry holding the current turtle onto the stack and changes nothing else. |
| Execution.OpRestoreState | src/core/lsystem/LSystem.ts:113-117 | Restoring throws exactly on an empty stack; otherwise it pops and makes the saved turtle current, changing nothing else. |
| Execution.SaveThenRestore | src/core/lsystem/LSystem.ts:107-117 | Saving then restoring gives back the scope as it was. |
| Execution.Invoke | src/core/lsystem/LSystem.ts:190-198 | `[` saves and increments the depth; `]` restores and decrements it, failing exactly on an empty stack. A client handler leaves the stack and depth alone: clients here may change only the turtle and their own scope. |
| Execution.Run | src/core/lsystem/LSystem.ts:320-331 | A successful replay makes exactly the calls of the reference list `Dispatched`, ends at the end of the string and keeps the string and `maxDepth`. |
| Execution.RunHandled | src/core/lsystem/LSystem.ts:320-331 | Unfolding step of the replay loop: a symbol whose handler succeeds is followed by the replay of the rest from the scope that handler left. |
| Execution.RunHandlerFails | src/core/lsystem/LSystem.ts:320-331 | Unfolding step of the replay loop: a handler that throws ends the replay with its error. |
| Execution.RunSkipped | src/core/lsystem/LSystem.ts:324-326 | Unfolding step of the replay loop: a symbol that is unregistered or registered without a handler is passed over. |
| Execution.Process | src/core/lsystem/LSystem.ts:311-332 | `process` without a working string throws; otherwise it replays from a fresh scope and makes the `Dispatched` calls. |
| Replay.DispatchedExactlyOnce | src/core/lsystem/LSystem.ts:320-331 | Every symbol with a handler gets exactly one call: each call is at a handled position, calls come in strictly increasing string order, and every handled position has a call. |
| Replay.DispatchedInRange | src/core/lsystem/LSystem.ts:320-331 | Every call is at a position from the start index on, with the handler registered for its symbol. |
| Replay.DispatchedOrdered | src/core/lsystem/LSystem.ts:320-331 | The calls are in strictly increasing string order. |
| Replay.DispatchedComplete | src/core/lsystem/LSystem.ts:320-331 | Every handled position gets a call. |
| Replay.RunNesting | src/core/lsystem/LSystem.ts:320-331 | With total clients, replaying the rest of the string fails exactly when some `]` would pop below the stack; on success stack height and depth move by the rest's net bracket level. |
| Replay.FrameAfterSave | src/core/lsystem/LSystem.ts:107-111 | A save goes one level deeper and keeps the entries already saved beneath. |
| Replay.FrameAfterRestore | src/core/lsystem/LSystem.ts:113-117 | A restore inside an enclosing frame finds a non-empty stack and comes one level back up. |
| Replay.RunEnclosed | src/core/lsystem/LSystem.ts:320-331 | Replaying a nested remainder never underflows; it succeeds when no client throws, and on success it returns to the stack, turtle and depth of its frame. |
| Replay.ProcessEnclosed | src/core/lsystem/LSystem.ts:311-332 | For a string with every symbol inside brackets, `process` succeeds when no client throws. When no client reports an underflow itself, it never fails by popping an empty stack. On success it ends with an empty stack, depth 1 and the original turtle. |
| Replay.ProcessBalancedBrackets | src/core/lsystem/LSystem.ts:190-198 | A balanced all-bracket string ends with an empty stack, depth 1 and the original turtle. |
| Replay.ProcessUnderflow | src/core/lsystem/LSystem.ts:311-332 | With total clients, `process` throws exactly when the string is not well nested from depth 0; on success stack height and depth reflect the net bracket level. |
| Replay.LeadingCloseUnderflows | src/core/lsystem/LSystem.ts:113-117 | A leading `]` pops the empty stack of the fresh scope at index 0. |
| Replay.SkippedSymbolsGetNoCall | src/core/lsystem/LSystem.ts:324-326 | A symbol that is unregistered or has no handler gets no call. |
| Rng.NewWeightedRng | src/core/rng/WeightedRNG.ts:11-17 | A fresh weighted generator has no weights, a total of 0 and `rollItr` 13, and keeps its seed. |
| Rng.Add | src/core/rng/WeightedRNG.ts:19-22 | `add(k, v)` makes `weights[k]` equal `v` and leaves every other key alone. A new key goes last in the visiting order; an existing one keeps its place. The total grows by `v` either way. |
| Rng.AddNewKeyTracks | src/core/rng/WeightedRNG.ts:19-22 | While keys are distinct, adding a new key keeps the total equal to the sum of the stored weights. |
| Rng.ReAddDoubleCounts | src/core/rng/WeightedRNG.ts:19-22 | Re-adding a key double-counts: the total exceeds the weight sum by the replaced weight. |
| Rng.ReAddExample | src/core/rng/WeightedRNG.ts:19-22 | Adding `a` with weight 1 twice gives a total of 2 over one stored weight of 1. |
| Rng.Roulette | src/core/rng/WeightedRNG.ts:30-40 | The subtract-as-you-go loop returns the first key whose cumulative weight strictly exceeds the starting range, or nothing when none does. |
| Rng.Roll | src/core/rng/WeightedRNG.ts:24-41 | `roll` advances `rollItr` by exactly 19, changes nothing else, and returns the roulette's key for `noise * totalWeight`. |
| Rng.NegativeDrawPicksFirst | src/core/rng/WeightedRNG.ts:28-40 | With non-negative weights and a positive total, a negative draw returns the first key. |
| Rng.LargeDrawPicksNothing | src/core/rng/WeightedRNG.ts:28-40 | With non-negative weights, a draw of 1 or more returns nothing. |
| Rng.RollTwice | src/core/rng/WeightedRNG.ts:24-26 | Two rolls advance the counter by 38 and leave the weights alone. |
| Rng.AddAll | src/core/shape_grammer/Building.ts:35-37 | After one `add` per configured property, each configured key holds the weight of its last occurrence. Every other key keeps its weight or stays missing. The seed and `rollItr` are unchanged. |
| Rng.AddAllTotal | src/core/shape_grammer/Building.ts:35-37 | One `add` per configured property adds their sum to the total, whatever the keys. |
| Rng.AddAllAppends | src/core/shape_grammer/Building.ts:35-37 | Adding distinct new keys appends them in order. |
| Rng.AddAllFresh | src/core/shape_grammer/Building.ts:35-37 | Adding distinct new keys appends them, and the total stays the weight sum. |
| Rng.NewAffineRng | src/core/rng/RNG.ts:10-17 | A fresh affine generator stores seed, `min` and `max` and starts `rollItr` at 232. |
| Rng.Scale | src/core/rng/RNG.ts:23-24 | The affine map sends draw 0 to `min` and draw 1 to `max`. |
| Rng.RollAffine | src/core/rng/RNG.ts:19-25 | `roll` advances `rollItr` by 19 and returns the affine image of its draw. |
| Rng.ScaleMonotone | src/core/rng/RNG.ts:23-24 | For `min <= max` a larger draw never gives a smaller value. |
| Rng.ScaleRange | src/core/rng/RNG.ts:23-24 | Draws in [-1, 1] give values in [2 min - max, max]; draws in [0, 1] give values of at least `min`. |
| Rng.NegativeDrawBelowMin | src/core/rng/RNG.ts:23-24 | A negative draw gives a value below `min` whenever `min < max`. |
| Blueprint.SeedOf | src/core/shape_grammer/Building.ts:28 | The configured seed is used when truthy; a missing seed or seed 0 gives 1723. |
| Blueprint.ToUpper | src/core/shape_grammer/Building.ts:32 | Upper-casing keeps the length and upper-cases each character in place. |
| Blueprint.MatchesIgnoringCase | src/core/shape_grammer/Building.ts:32 | A string upper-cases to an upper-case name exactly when it spells the name letter by letter in either case. |
| Blueprint.GetRng | src/core/shape_grammer/Building.ts:26-44 | A section without a type throws. Otherwise a weighted generator is made exactly when the type upper-cases to `WEIGHTEDRNG`. It has the seed rule's seed, `rollItr` 13 and a total equal to the sum of the configured values. |
| Blueprint.GetRngLoadsWeights | src/core/shape_grammer/Building.ts:32-37 | With distinct property keys, the generator holds exactly the configured weights in order, and its total is their sum. |
| Blueprint.GetRngIgnoresCase | src/core/shape_grammer/Building.ts:32-43 | Given a type, the generator is made exactly when the type spells `WEIGHTEDRNG` in any mix of cases; any other type gives nothing. |
| Blueprint.LoadConfig | src/core/shape_grammer/Building.ts:46-58 | Loading succeeds exactly when a walls section exists and its generator loads. Only `wallsRNG` is set; `floorsRNG` stays unset. |
| Blueprint.FloorIgnored | src/core/shape_grammer/Building.ts:51-55 | The floor section changes neither whether loading succeeds nor the walls generator. |
| City.TableIndexInRange | src/core/shape_grammer/CityGenerator.ts:12-17 | For a non-negative coordinate, the floored remainder lies in [0, size). |
| City.TableIndexNegative | src/core/shape_grammer/CityGenerator.ts:12-17 | A negative coordinate that is not a multiple of the size gives a negative index. |
| City.GetRandom2D | src/core/shape_grammer/CityGenerator.ts:12-17 | The lookup succeeds exactly when the row index names an existing row; it returns the entry at the two floored remainders, or nothing outside the row. |
| City.GetRandom2DInTable | src/core/shape_grammer/CityGenerator.ts:12-17 | Non-negative coordinates into a full rectangular table always find their entry. |
| City.PopulationNoise | src/core/shape_grammer/CityGenerator.ts:55-61 | The lookup fails exactly when the row of `x` is missing. The population level is never negative: it is the table entry when that is positive, and 0 otherwise. |
| City.CanPlaceProperty | src/core/shape_grammer/CityGenerator.ts:66-76 | The backwards scan returns true exactly when no placed property reports an overlap with the candidate. |
| City.BuildConstraint | src/core/shape_grammer/CityGenerator.ts:163-166 | The constraint is built by the three calls, in order, with the population level and the fixed ranges. |
| City.BlueprintIndexRange | src/core/shape_grammer/CityGenerator.ts:135-137 | A draw in [-1, 1) gives an index in [0, n); the draw 1 gives `n`. |
| City.ChooseBlueprint | src/core/shape_grammer/CityGenerator.ts:118-141 | With no valid blueprint the call returns early. Otherwise the index comes from the cached noise and the number of selected blueprints, is used into the full list, and must fall inside it. |
| City.SelectedCount | src/core/shape_grammer/CityGenerator.ts:118-128 | The selected blueprints never outnumber the loaded ones. |
| City.TopDrawOverruns | src/core/shape_grammer/CityGenerator.ts:135-141 | When every blueprint is valid, the draw 1 indexes past the list and throws. |
| City.ChoosesRejectedBlueprint | src/core/shape_grammer/CityGenerator.ts:120-141 | Because the index is taken into the full list, a rejected blueprint can be chosen. |
| City.ConstructProperty | src/core/shape_grammer/CityGenerator.ts:78-144 | The property is recorded before anything else. Outlining it through `debugLines.add` throws when `debugLines` has no `add`. Otherwise the call fails exactly when the blueprint choice does, and on success the property occupies its spot even when no blueprint is valid. |
| City.BuildNeedsDebugLines | src/core/shape_grammer/CityGenerator.ts:104-175 | Without a `debugLines` object that has `add`, `build` on a grid of at least one point throws a TypeError: the first grid point is always free. |
| City.Step | src/core/shape_grammer/CityGenerator.ts:158-176 | One grid point places its 15-unit candidate exactly when no placed property overlaps it, and otherwise leaves the properties alone. |
| City.LoadBlueprints | src/core/shape_grammer/CityGenerator.ts:152-156 | One blueprint per configured building, in order; the call fails exactly when some building fails to load. |
| City.Build | src/core/shape_grammer/CityGenerator.ts:146-178 | The two nested loops compute the functional `build`: a fresh property and blueprint list, then the grid row by row. On success no placed property overlaps an earlier one. |
| City.BuildRow | src/core/shape_grammer/CityGenerator.ts:159-176 | The inner loop over `z` computes one row of the functional `build`. |
| City.StepSeparated | src/core/shape_grammer/CityGenerator.ts:66-76 | Placing only where the candidate is free keeps the placed properties pairwise non-overlapping. |
| City.RowSeparated | src/core/shape_grammer/CityGenerator.ts:159-176 | A row of placements keeps pairwise separated properties separated. |
| City.GridSeparated | src/core/shape_grammer/CityGenerator.ts:158-177 | So do the remaining rows of the grid. |
| City.BuildSeparated | src/core/shape_grammer/CityGenerator.ts:146-178 | After `build`, for `i < j`, `properties[i]` does not report an overlap with `properties[j]`. |
| City.BuildCovers | src/core/shape_grammer/CityGenerator.ts:158-176 | Every grid point of a finished `build` holds a property or is blocked by one, and the blueprints are the loaded ones. |
| City.BuildOrdered | src/core/shape_grammer/CityGenerator.ts:158-176 | A finished `build` holds only 15-unit candidates at grid points, in row-major order. |
| MeshInstanced.NewMesh | src/geometry/MeshInstanced.ts:53-64 | A fresh mesh has its name and no models. |
| MeshInstanced.AddInstanceUsingTransform | src/geometry/MeshInstanced.ts:85-87 | One more model, the given one, at the end; the earlier models are unchanged. |
| MeshInstanced.NumChunks | src/geometry/MeshInstanced.ts:125-127 | The chunk count is `ceil(models / 200)`: enough chunks of 200, but not one too many. It is 0 exactly for no models. |
| MeshInstanced.SliceIndex | src/geometry/MeshInstanced.ts:132 | A `slice` bound counts back from the end when negative and is clamped to [0, length]. |
| MeshInstanced.Slice | src/geometry/MeshInstanced.ts:132 | `slice` clamps both ends to the list, counting negative ends from the back, and is empty when they cross. |
| MeshInstanced.Chunk | src/geometry/MeshInstanced.ts:129-133 | Chunk `c >= 0` is `models[200c .. min(200(c+1), n)]`, or empty past the end. No chunk has more than 200 entries. |
| MeshInstanced.ChunkEmptyExactly | src/geometry/MeshInstanced.ts:125-133 | A chunk is non-empty exactly when its index is below the chunk count. |
| MeshInstanced.ChunksReassemble | src/geometry/MeshInstanced.ts:125-133 | Chunks 0 to `getNumChunks() - 1`, concatenated, give the models in order. |
| MeshInstanced.NegativeChunk | src/geometry/MeshInstanced.ts:129-133 | Chunk -1 is empty; chunk -2 and lower count back from the end of the list. |
| DynamicRoof.NewRoof | src/geometry/DynamicRoof.ts:43-52 | A fresh roof has empty arrays and counter 0. |
| DynamicRoof.AddTriangle | src/geometry/DynamicRoof.ts:54-73 | Each triangle appends the 4 components of each corner, three up normals, four roof colours and the next three indices; the counter grows by 3. |
| DynamicRoof.IndicesAfter | src/geometry/DynamicRoof.ts:68-72 | After `n` triangles the counter is `3n` and the indices are `0 .. 3n-1`. |
| DynamicRoof.PointsAfter | src/geometry/DynamicRoof.ts:55-57 | The points are the corners' components in order. |
| DynamicRoof.NormalsAfter | src/geometry/DynamicRoof.ts:59-61 | The normals are one `(0, 1, 0, 0)` per vertex. |
| DynamicRoof.ColoursAfter | src/geometry/DynamicRoof.ts:63-66 | The colours are four roof colours per triangle. |
| DynamicRoof.IndicesNameVertices | src/geometry/DynamicRoof.ts:55-72 | Every stored index is below the vertex count `points.length / 4`. |
| DynamicRoof.ColoursOutnumberVertices | src/geometry/DynamicRoof.ts:55-66 | From the first triangle on, there are more colour tuples than vertices. |
| LineMesh.NewLine | src/geometry/Line.ts:33-38 | A new line mesh draws lines, is not instanced and has no points. |
| LineMesh.Create | src/geometry/Line.ts:40-66 | An odd number of points throws on the missing end point. Otherwise the positions are the components of every point in order; the indices are `0 .. L-1`, each below the vertex count; and the count is `L`. |
| LineMesh.SegmentStep | src/geometry/Line.ts:45-60 | One turn of the loop appends its two points' components and the indices `itr, itr + 1`. |
| TextureGl.ToUint32 | src/rendering/gl/Texture.ts:102-104 | The operands of `&` are reduced to 32 bits, and integers in [0, 2^32) are unchanged. |
| TextureGl.And | src/rendering/gl/Texture.ts:102-104 | Bitwise `&` of non-negative integers is at most either operand. |
| TextureGl.AndPredecessor | src/rendering/gl/Texture.ts:102-104 | For `v >= 1`, `v & (v - 1)` is 0 exactly when `v` is a power of two. |
| TextureGl.IsPowerOf2 | src/rendering/gl/Texture.ts:102-104 | The test holds for 0, and for 1 <= v < 2^32 exactly when `v` is a power of two. |
| TextureGl.WrapsAbove32Bits | src/rendering/gl/Texture.ts:102-104 | 2^32 + 1 passes the test without being a power of two. |
| TextureGl.SlotUnit | src/rendering/gl/Texture.ts:75-95 | Slots 1 to 4 select units 1 to 4; every other slot value selects unit 0. |
| TextureGl.Bind | src/rendering/gl/Texture.ts:72-99 | `bind` activates the slot's unit and binds the texture there; the other units keep their textures. |
| TextureGl.BindDistinctSlots | src/rendering/gl/Texture.ts:72-99 | Two textures bound to two different slots in 1 to 4 both stay bound. |
| TextureGl.OtherSlotsShareUnitZero | src/rendering/gl/Texture.ts:92-94 | Any two slots outside 1 to 4 share unit 0, and the later binding wins. |
| TextureGl.OnImageLoad | src/rendering/gl/Texture.ts:51-60 | Mipmaps are generated exactly when both sides pass the test. Otherwise wrap S and T are clamped to the edge and the minification filter is set to linear, in that order. |
| TextureGl.MipmapsForPowersOfTwo | src/rendering/gl/Texture.ts:51-60 | For real image sizes, mipmaps are generated exactly when both sides are powers of two. |
| ShapeGrammar.NewShapeGrammar | src/lsystems/LSystemShapeGrammar.ts:57-71 | A new shape grammar has axiom `P`, the given seed and an empty result list, and no lots map yet. |
| ShapeGrammar.AddLotsMap | src/lsystems/LSystemShapeGrammar.ts:73-75 | `addScope('lotsMap', ...)` makes the square lot available and changes nothing else. |
| ShapeGrammar.ShapeConstruct | src/lsystems/LSystemShapeGrammar.ts:77-82 | `construct` returns the very result list kept in the scope, and keeps the rules and symbols. |
| ShapeGrammar.ShapeSystemIs | src/lsystems/LSystemShapeGrammar.ts:57-65 | The constructor builds the single rule `P -> bF{1}+P`, the bracket and `b`, `+`, `F` symbols, and axiom `P`. |
| ShapeGrammar.ShapeRulesDeterministic | src/lsystems/LSystemShapeGrammar.ts:61 | `P` has a single rule, so its expansion is always `bF{1}+P`. |
| ShapeGrammar.ExpandShape | src/lsystems/LSystemShapeGrammar.ts:61 | One generation adds one more `bF{1}+` before the trailing `P`. |
| ShapeGrammar.ExpandNShape | src/lsystems/LSystemShapeGrammar.ts:60-61 | `n` generations from `k` units give `k + n` units followed by `P`. |
| ShapeGrammar.ConstructedShape | src/lsystems/LSystemShapeGrammar.ts:57-61 | From the constructed grammar, `construct(n)` succeeds with `bF{1}+` repeated `n` times followed by `P`. |
| ShapeGrammar.ShapeHandler | src/lsystems/LSystemShapeGrammar.ts:26-51 | `b` throws a TypeError exactly when no lots map was added. Otherwise it appends one lot, with the square, scale 30 and the turtle's world position, and leaves the turtle. `F` and `+` only move or turn the turtle. |
| ShapeGrammar.ShapeHandlers | src/lsystems/LSystemShapeGrammar.ts:63-65 | `b`, `F` and `+` reach their handlers; `{`, `1`, `}` and `P` are registered nowhere and are skipped. |
| ShapeGrammar.WalkUnit | src/lsystems/LSystemShapeGrammar.ts:26-51 | One `bF{1}+` lays one lot with the square, scale 30 and the turtle's position, then steps forward and turns. |
| ShapeGrammar.WalkRepeat | src/lsystems/LSystemShapeGrammar.ts:26-51 | `k` units lay `k` lots, the `j`-th at the turtle's position after `j` steps. |
| ShapeGrammar.RunShapeStep | src/lsystems/LSystemShapeGrammar.ts:26-51 | With a lots map, one bracket-free symbol either appends a lot at the turtle's position (`b`), moves or turns the turtle (`F`, `+`), or is skipped. |
| ShapeGrammar.RunWalk | src/lsystems/LSystemShapeGrammar.ts:26-51 | With a lots map, replaying a bracket-free string succeeds and appends exactly the lots of the reference walk. |
| ShapeGrammar.ShapeRewrite | src/lsystems/LSystemShapeGrammar.ts:77-78 | `construct(n)` on `k` units followed by `P` leaves `k + n` units followed by `P`. |
| ShapeGrammar.ShapeReplay | src/lsystems/LSystemShapeGrammar.ts:77-82 | Replaying `m` units and a `P` with a lots map appends `m` lots after those already in the list. |
| ShapeGrammar.ShapeConstructLots | src/lsystems/LSystemShapeGrammar.ts:77-82 | After `k` earlier generations, `construct(n)` returns the old lots followed by `k + n` new ones, the `j`-th at the turtle's position after `j` steps. |
| ShapeGrammar.ShapeConstructTwice | src/lsystems/LSystemShapeGrammar.ts:67-82 | The result list is never reset. `construct(a)` then `construct(b)` leaves `a + b` units in the string, and a list of `a + (a + b)` lots that starts with the first call's `a` lots. |
| ShapeGrammar.DrawWithoutLotsMap | src/lsystems/LSystemShapeGrammar.ts:26-28 | Without a lots map, a `b` under the replay throws. |
| ShapeGrammar.ProcessNeedsLotsMap | src/lsystems/LSystemShapeGrammar.ts:26-28 | Without a lots map, replaying a string that starts with `b` throws. |
| ShapeGrammar.ShapeConstructNeedsLotsMap | src/lsystems/LSystemShapeGrammar.ts:67-82 | On a fresh shape grammar with no lots map, `construct(n)` for `n >= 1` throws. |
| TreeGrammar.AddedF1 | src/lsystems/LSystem1.ts:447 | The first `F` rule creates the set with weight 5. |
| TreeGrammar.AddedF2 | src/lsystems/LSystem1.ts:448 | The second `F` rule brings the total to 12. |
| TreeGrammar.AddedF3 | src/lsystems/LSystem1.ts:449 | The third `F` rule brings the total to 16. |
| TreeGrammar.AddedB | src/lsystems/LSystem1.ts:450 | `B` gets its single rule. |
| TreeGrammar.TreeRuleSystemIs | src/lsystems/LSystem1.ts:439-450 | The constructor's axiom and rules are exactly the tree axiom and rule table. |
| TreeGrammar.TreeSystem | src/lsystems/LSystem1.ts:434-458 | The constructor's grammar is the tree rule table, the tree symbol table, the seed and the axiom, with no `maxDepth` yet. |
| TreeGrammar.FRulesWellFormed | src/lsystems/LSystem1.ts:447-449 | The `F` set has weights 5, 7 and 4, with total 16 equal to their sum. |
| TreeGrammar.F1Balanced | src/lsystems/LSystem1.ts:447 | The first `F` expansion is balanced. |
| TreeGrammar.F2Balanced | src/lsystems/LSystem1.ts:448 | The second `F` expansion is balanced. |
| TreeGrammar.F3Balanced | src/lsystems/LSystem1.ts:449 | The third `F` expansion is balanced. |
| TreeGrammar.B1Balanced | src/lsystems/LSystem1.ts:450 | The `B` expansion is balanced. |
| TreeGrammar.AxiomEnclosed | src/lsystems/LSystem1.ts:445 | Every symbol of the axiom lies inside a bracket pair. |
| TreeGrammar.TreeGrammarShape | src/lsystems/LSystem1.ts:445-458 | The `F` total is 16 and `B` has one rule. Every rule set can select, no rule rewrites a bracket and every expansion is balanced. The axiom is enclosed, and the brackets keep their built-in handlers. |
| TreeGrammar.FSelection | src/lsystems/LSystem1.ts:447-449 | With total 16, scaled draws below 5, 12 and 16 select the first, second and third `F` rule; a draw of 1 or more selects none. |
| TreeGrammar.Lookahead | src/lsystems/LSystem1.ts:315-334 | The scan never records a depth below the one it starts with. |
| TreeGrammar.LookaheadFinds | src/lsystems/LSystem1.ts:315-334 | The scan records a greater depth exactly when an `l` deeper than the current depth is reachable before the running depth drops to 0, and then records that leaf's depth. |
| TreeGrammar.LookaheadReadsAhead | src/lsystems/LSystem1.ts:315-334 | The scan reads only indices after `itr`. |
| TreeGrammar.LeafLookahead | src/lsystems/LSystem1.ts:305-336 | The lookahead from the character after `itr` never lowers the depth it starts from. |
| TreeGrammar.LeafIndexInRange | src/lsystems/LSystem1.ts:302 | For noise in [-1, 1] and at least one mesh, the noise-chosen index lies in [0, n-1]. |
| TreeGrammar.DrawBranchLeaf | src/lsystems/LSystem1.ts:244-348 | Below depth 3, or below height 1, no leaf is placed. Reaching the leaf list without one throws. A placed leaf names an existing mesh. Every failure is one of the leaf handler's two errors. |
| TreeGrammar.LeafChoice | src/lsystems/LSystem1.ts:302-340 | With no deeper `l` ahead, `useLast` holds and the last mesh is used; with no meshes that throws. With a deeper `l` ahead, the noise-chosen mesh is used when it is in range. With at least one mesh and noise in [-1, 1] the leaf is always placed. |
| TreeGrammar.DrawBranchSegment | src/lsystems/LSystem1.ts:126-242 | Below the ground nothing happens. Above it a missing `influencers` throws. With every entry present it succeeds. A collision counts one in `collisionCount` and leaves the turtle. A drawn segment needs the `branch` mesh and moves the turtle. |
| TreeGrammar.NatureBend | src/lsystems/LSystem1.ts:350-387 | The bend throws exactly when `sunlightDir` or `influencers` is missing. Otherwise it bends the turtle by depth and by `maxDepth`, the value `process` passed on. |
| TreeGrammar.RotateTurtle | src/lsystems/LSystem1.ts:389-427 | Each rotation throws exactly when `constraints` is missing, and otherwise only turns the turtle. |
| TreeGrammar.TreeHandler | src/lsystems/LSystem1.ts:126-458 | A handler keeps every scope entry and the leaf meshes, appends at most one leaf and never lowers `collisionCount`. Every failure is a TypeError. The leaf handler's errors come only from it, and with every other entry present only the leaf handler can fail. |
| TreeGrammar.TreeNeverUnderflows | src/lsystems/LSystem1.ts:126-427 | No tree handler reports a stack underflow of its own. |
| TreeGrammar.RunKeepsLeavesInRange | src/lsystems/LSystem1.ts:298-347 | A replay keeps the leaf meshes, only appends leaves, and keeps every recorded leaf on an existing mesh. |
| TreeGrammar.TreeRunFailsInLeaf | src/lsystems/LSystem1.ts:126-427 | A tree replay fails only by stack underflow or a TypeError. With every entry the non-leaf handlers read present, it fails only by underflow or in the leaf handler. |
| TreeGrammar.TreeStateInitially | src/lsystems/LSystem1.ts:434-464 | A new tree system has the tree rules and symbols and an enclosed working string. |
| TreeGrammar.TreeConstruct | src/lsystems/LSystem1.ts:474-475 | Rewriting keeps that state, and cannot fail while every draw is below 1. |
| TreeGrammar.TreeProcess | src/lsystems/LSystem1.ts:474-476 | Replaying a tree string never pops an empty stack. On success it ends with an empty stack, depth 1 and the fresh turtle, with every leaf on an existing mesh. |
| TreeGrammar.TreeConstructAll | src/lsystems/LSystem1.ts:474-479 | `construct` without an axiom throws, and keeps the rules and symbols. |
| TreeGrammar.TreeConstructAllSafe | src/lsystems/LSystem1.ts:474-479 | A whole `construct` keeps the tree state and never underflows. It fails only by a TypeError or in rule selection, and only by a TypeError while draws stay below 1. With every scope entry present the TypeError is the leaf handler's. Every recorded leaf stays on an existing mesh. |
| TreeGrammar.ConstructorScopeThrows | src/lsystems/LSystem1.ts:434-479 | The scope the constructor builds has no `constraints`. Given only its leaf meshes, `construct(0)` throws at the axiom's first `/`. |

## Left out

- Floating-point arithmetic is left out: `number` is `real`, so there is no rounding and no `NaN`, except the zero-size table index, which is `None`. Vectors, matrices and turtle transforms are opaque values or operation parameters; this covers `applyTransform`, `applyTransformPre`, rotations and `lotPosition`.
- The noise library (`simplex2`, `perlin3`) and the cached noise file are left out. Draws are a parameter `Noise2`, and cached tables are a `NoiseTable` value.
- Logging (`debug`) is left out: it has no effect on state.
- Blueprint.ToUpper: upper-cases only the ASCII letters `a` to `z`; other characters are left as they are.
- Rng.Add, Rng.Roulette, Rng.AddAllAppends, Blueprint.GetRngLoadsWeights: assume `for..in` visits keys in insertion order. That covers both the configured values and the generator's own `weights` object, which `roll` walks (WeightedRNG.ts:30), so a new key is taken to go last in the visiting order. JavaScript visits integer-like keys such as `"3"` first, in ascending order; the model assumes the configuration uses none.
- Property, GenerationConstraint and ShapeGrammar are not part of this model. Overlap is a parameter `overlap` and constraint validity a parameter `isValid`.
- `Building.construct` is an empty method and is modelled as doing nothing.
- Only the `Square` entry of the lots map is modelled; other entries of the scope object are not read by the modelled handlers.
- The city generator's `fbm2D` and `rootTranslate` are left out, and so are the outline coordinates `debugProperty` computes. `debugLines` is modelled only as whether it has an `add` method: `Env.debugLines`.
- TreeGrammar.DrawBranchSegment: the collision test is an opaque function `collision` of the turtle and depth. In the program it searches a global kd-tree of the segments drawn before, so its outcome depends on history the model does not keep. The inserts into that tree and into `boundingBoxes` are left out, and so are the instance matrix and the line added to `boundingLines`.
- TreeGrammar.NatureBend: the sun and gravity bend is an opaque function of the turtle, `depth` and `maxDepth`. The program divides `depth` by `maxDepth`, which gives a non-finite factor for `maxDepth` 0, or `NaN` before any `construct`. The model does not distinguish those cases.
- TreeGrammar.RotateTurtle: the rotation angles from `constraints` and the Perlin noise are folded into the opaque `rotate`. A `constraints` object without the angle fields gives `NaN` angles in the program, not a throw; the model only tracks whether `constraints` exists.
- `LSystem1.addScope` and `addInstance` are not modelled as operations. A `TreeScope` value stands for the scope object, with `ConstructorScope` the one the constructor builds; its `branchMesh` field records whether `addInstance("branch", …)` was called.
- In `drawBranchLeaf`, the leaf's model matrix is left out, and so is the call that adds the instance to the chosen mesh. The model records only which mesh gets a leaf.
- `MeshInstanced.addInstance`, `load` and `create` are left out: they are matrix construction, asset loading and GL upload. The clone in `addInstanceUsingTransform` is value semantics.
- The `create` buffer uploads of the geometry files are left out, and so is the rest of the WebGL plumbing. This covers `texImage2D`, the texture's placeholder pixel, the image download and `activeTexture`/`bindTexture` beyond the recorded unit.
- TextureGl.IsPowerOf2: operands are non-negative integers reduced to 32 bits; fractional or negative image sizes are not modelled.
- City.PopulationNoise: coordinates are the non-negative grid integers `build` passes, so the remainder needs no truncation.
- `Line.create` on an odd number of points throws a TypeError in the model. The program reads an `undefined` end point and fails on its first component.
- On a throw, every failing member returns only its error and keeps no state; the program keeps its partial effects. These include:
  - the symbols already spliced in place before a selection miss;
  - `maxDepth` set to 0 before the scan reads the string;
  - lots, leaves and `collisionCount` updated before a later handler throws;
  - the property pushed before `debugLines.add` throws.
- Strings are sequences of Dafny `char`, which are Unicode scalar values. The program indexes `rootString` and `setAxiom`'s argument by UTF-16 code units, so strings with characters outside the Basic Multilingual Plane differ in length and content.
- Execution.Invoke: a client handler may change only the turtle and its own scope (`ClientRun`). The program hands `onProcess` the whole execution scope, so a client could also change `itr`, `depth`, `stack` or `rootString`. Neither modelled client does.
