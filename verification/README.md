# Verified models of vLLM's compilation layer and its data structures

This project models, in Dafny, the parts of vLLM whose correctness is decided by Python code rather
than by kernels, and proves what they are for:

- **Graph splitting** (`SplitGraph.dfy`). One pass numbers the nodes of an FX graph. Running the
  subgraphs in ascending number gives every node the value it has in the unsplit graph and the same
  heap, for every meaning of the operators, or both runs raise.
- **Static buffers and CUDA graphs** (`CudaGraph*.dfy`). Memory is a map from addresses to storages,
  a runnable a program of kernel launches, a captured graph such a program with its addresses bound.
  Over every run of calls, what goes through `copy_and_call` and the wrapper agrees with calling the
  runnable directly; and so does every pass through wrappers nested to any depth.
- **Partition signatures** (`PartitionSignature.dfy`, `PartitionRuns.dfy`). The backward pass over
  the partitions, with mutation renaming and NoneLayout buffers. Each partition runs from its declared
  inputs alone, and the graph outputs come out as in the unpartitioned run, exactly under a stated
  condition on what is freed.
- **Logprobs and streaming outputs** (`Logprobs.dfy`, `RequestOutputs.dfy`). `FlatLogprobs` behaves as
  a list of dictionaries; `RequestOutput.add` folds deltas into their per-completion concatenation.
- **Bad words** (`BadWords.dfy`). The mask is exact, and no generation contains a bad word.
- **Scalar types** (`ScalarTypes.dfy`, `FloatMax.dfy`). The id packs and unpacks; the maximum of a
  float format is the largest finite value of all its encodings.
- **Artifact store, multimodal sampler, lockstep chunks, index ranges** (`ArtifactStore.dfy`,
  `MultiModalSampler.dfy`, `Lockstep.dfy`, `IndexRanges.dfy`).

Code that updates state is a class or a method with loops, proved equal to a specification function
(`Call`, `SubgraphId`, `Signatures`, `AddAll`, ...); the theorems are about those functions. What the
code calls and this project cannot see (operators, kernels, the hash, random draws) is a function
parameter or an arbitrary choice. `dafny verify dfyconfig.toml` checks everything.

Where the code does less than one might expect, the exact condition is proved:

- A slice of `FlatLogprobs` with a negative step and two or more positions loses all items, because the
  code cuts from the first start to the last end (`Logprobs.SliceCorrectIff`,
  `Logprobs.ReversedSliceLosesItems`). A slice that selects nothing raises.
- The computed maximum is wrong for an IEEE format with one exponent bit or without infinities
  (`FloatMax.MaxIsLargestIff`), and raises for a format with no mantissa bits that keeps a NaN, such as
  `float8_e8m0fnu` (`FloatMax.MaxRaisesIff`).
- A type with a field wider than its slot takes over the id of another (`ScalarTypes.PackCollides`,
  `ScalarTypes.WideTypeTakesOver`).
- A shape with an underscore breaks name recovery and lets two entries share a key
  (`ArtifactStore.NameOfKey`, `ArtifactStore.KeysCollideIff`, `ArtifactStore.UnderscoredShapesCollide`).
- A NoneLayout name in `last_usage` becomes a partition input, though NoneLayout buffers must not, and
  the partitioned graph then cannot run (`PartitionRuns.NoneLayoutInputIff`,
  `PartitionRuns.ForeignFreeBreaks`, `PartitionRuns.SignaturesSuffice`).
- A symbolic input that the runnable mutates is not changed for the caller, and symbolic inputs that
  share storage are separated (`CudaGraphInputs.InputsAgreeIff`, `CudaGraphInputs.AgreeIffNoClash` and
  their examples).
- A graph output under a renamed (mutated) name is never crossed off the unmet names, although its
  storage is returned: it stays unmet at the front (`PartitionRuns.FrontProducedIff`,
  `PartitionRuns.RenamedOutputStaysUnmet`). Nothing reads the unmet names after the loop.
- An empty bad word makes every call raise (`BadWords.NoBadWordsLogitsProcessor.Process`).

## Model

| member | source | states |
|---|---|---|
| `SplitGraph.SplitsWhatIsListed` | vllm/compilation/partition_rules.py:14-38 | calls of a listed packet, of any overload of a listed packet and of a listed overload split, and no other node does |
| `SplitGraph.OneOverloadSplits` | vllm/compilation/partition_rules.py:29-36 | listing one overload splits that overload and neither another one nor the packet |
| `SplitGraph.NumberNodes` | vllm/compilation/backends.py:341-373 | the pass numbers exactly the nodes that are neither placeholder nor output: a projection of anything but a placeholder gets its producer's number, any other node twice the number of runs of splitting ops that ended before it, and one more if it splits itself; it records exactly the subgraphs of splitting ops; the assertion on line 356 never fails |
| `SplitGraph.SplitItems` | vllm/compilation/backends.py:383-400 | the items are strictly ascending, one per subgraph in use, and flagged as splitting exactly when the id is odd |
| `SplitGraph.SplitFlagIsOdd` | vllm/compilation/backends.py:395 | membership in `split_op_graphs` recognises exactly the odd subgraphs |
| `SplitGraph.CounterMonotone` | vllm/compilation/backends.py:360-373 | the running counter is even at every node and never decreases |
| `SplitGraph.CounterStable` | vllm/compilation/backends.py:365-371 | the counter stays the same between two nodes exactly when no run of splitting ops ends between them |
| `SplitGraph.OddIffRootSplits` | vllm/compilation/backends.py:352-373 | a node is in an odd subgraph exactly when its chain of `getitem` projections is rooted at a splitting op |
| `SplitGraph.CallOddIffSplits` | vllm/compilation/backends.py:360-373 | a call is in an odd subgraph exactly when it is a splitting op |
| `SplitGraph.CounterCountsRuns` | vllm/compilation/backends.py:360-371 | the counter is twice the number of runs of splitting ops that have ended |
| `SplitGraph.IdsMonotone` | vllm/compilation/backends.py:360-373 | nodes other than projections of computed values are numbered in graph order |
| `SplitGraph.SplitsShareIffAdjacent` | vllm/compilation/backends.py:365-371 | two splitting ops share a subgraph exactly when everything between them is a splitting op |
| `SplitGraph.OthersShareIffNoSplitBetween` | vllm/compilation/backends.py:360-373 | two such nodes that do not split share a subgraph exactly when no splitting op lies between them |
| `SplitGraph.EdgeMonotone` | vllm/compilation/backends.py:348-373 | ids never decrease along a data edge, so no node runs ahead of its input |
| `SplitGraph.AscendingIsFirstAppearance` | vllm/compilation/backends.py:375-381 | ascending id is also the order in which subgraphs first appear in the graph |
| `SplitGraph.SplitRankSound` | vllm/compilation/backends.py:341-381 | the order induced by the numbering respects every data edge and keeps the effectful calls in graph order |
| `SplitGraph.SoundSchedulesAgree` | vllm/compilation/backends.py:375-381 | any two orders that respect data edges and effect order give the same values and the same heap, or both raise |
| `SplitGraph.SplitPreservesMeaning` | vllm/compilation/backends.py:337-381 | for every graph, list of splitting ops, meaning of the operators and initial heap, the split module binds every node to its unsplit value and leaves the same heap, or both raise |
| `CudaGraph.RunSame` | vllm/compilation/backends.py:71-84 | one program run under two address bindings whose arguments hold the same data gives the same results and leaves the fixed arguments alike |
| `CudaGraphWrapper.CUDAGraphWrapper.Invoke` | vllm/compilation/cuda_graph.py:207-309 | one call of the wrapper, all branches and failures, takes memory, entries and counter to what the specification `Call` says |
| `CudaGraphWrapper.CopyAndCaller.CopyInputs` | vllm/compilation/backends.py:71-83 | the copy loop, lazy buffers and size mismatches included, leaves memory, buffers and arguments as the specification `CopyFrom` says |
| `CudaGraphWrapper.CopyAndCaller.Invoke` | vllm/compilation/backends.py:71-84 | copying and then calling the wrapper is `CopyAndCall`; a failed copy reaches neither the entries nor the counter |
| `CudaGraphWrapper.CallKinds` | vllm/compilation/cuda_graph.py:212-306 | a call passes through exactly in another mode, captures exactly when its descriptor has no graph and capturing is allowed, and replays exactly when there is a graph and, when debugging, the addresses are the recorded ones |
| `CudaGraphWrapper.CaptureReturnsGraph` | vllm/compilation/cuda_graph.py:247-295 | a capture executes nothing, records the runnable's program on the call's arguments and addresses, and returns that program's tensors |
| `CudaGraphWrapper.ReplayReturnsGraph` | vllm/compilation/cuda_graph.py:308-309 | a replay executes the recorded graph and returns the recorded tensors |
| `CudaGraphWrapper.RaisingLeaves` | vllm/compilation/cuda_graph.py:224-251 | a call that raises changes neither memory nor counter nor any graph; a failed attempt leaves an entry without one |
| `CudaGraphWrapper.ReplaysReturnCaptured` | vllm/compilation/cuda_graph.py:285-309 | over every run, what a capture returned is what every later replay of its descriptor returns |
| `CudaGraph.AddressesEqualIff` | vllm/compilation/cuda_graph.py:247-250 | recorded addresses are equal exactly when every tensor argument lies at the same address |
| `CudaGraphReplay.CopyFromSucceedsIff` | vllm/compilation/backends.py:73-83 | copying succeeds exactly when every symbolic input is a tensor of the call that fits its buffer, if there is one, or has a single row |
| `CudaGraphWrapper.CallKeepsGraphs` | vllm/compilation/cuda_graph.py:212-309 | a recorded graph never changes, a capture adds exactly the context's descriptor and one to the counter, nothing else adds any, and only the wrapper's own mode captures or replays |
| `CudaGraphWrapper.CounterCountsGraphs` | vllm/compilation/cuda_graph.py:287-290 | over every run of calls, failed captures included, the counter grows by exactly the number of entries that came to hold a graph |
| `CudaGraphWrapper.GraphsStay` | vllm/compilation/cuda_graph.py:225-233 | over every run, an entry that holds a graph keeps it unchanged |
| `CudaGraphWrapper.CapturedAtMostOnce` | vllm/compilation/cuda_graph.py:225-295 | no two calls of a run capture the same descriptor |
| `CudaGraphReplay.CopyInputs` | vllm/compilation/backends.py:73-83 | for inputs that fit and are disjoint from the buffers, copying succeeds, every static view holds its input's data, existing buffers stay where they are and no other storage changes |
| `CudaGraphReplay.CallKeepsValid` | vllm/compilation/cuda_graph.py:207-309 | every admissible call, captures and failed captures included, keeps the invariant tying entries to buffers, fixed arguments and recorded addresses |
| `CudaGraphReplay.BoundArgsAgree` | vllm/compilation/cuda_graph.py:297-306 | two calls bound to the same buffers with the same shapes have the same arguments, hence the same addresses |
| `CudaGraphReplay.CallRunsProgram` | vllm/compilation/cuda_graph.py:207-309 | a call that passes through or replays runs the runnable's own program on the loaded arguments, and the address assertion does not fail |
| `CudaGraphReplay.RecordingKeepsFixed` | vllm/compilation/cuda_graph.py:247-295 | a call that captures or raises leaves the contents of all fixed arguments alone |
| `CudaGraphReplay.CallMatchesDirect` | vllm/compilation/cuda_graph.py:207-309 | each pass-through or replay call through the static buffers gives the contents of a direct call in any memory holding the same data, updates the fixed arguments as the direct call does, and never fails the address assertion |
| `CudaGraphInputs.CallLeavesCaller` | vllm/compilation/backends.py:71-84 | whatever an admissible call does, storage of the caller that is no buffer, no fixed argument and no graph's temporary keeps its contents |
| `CudaGraphInputs.InputsAgreeIff` | vllm/compilation/backends.py:79-84 | for all kernels the caller finds in a symbolic input what a direct call would leave there, exactly when the input is not mutated or is empty |
| `CudaGraphInputs.MutatedInputDiffers` | vllm/compilation/backends.py:79-84 | a runnable that overwrites its input: through the buffers the caller's tensor keeps 1, directly it becomes 9 |
| `CudaGraphInputs.AgreeIffNoClash` | vllm/compilation/backends.py:79-84 | against a binding like the static buffers, all programs mutating only given arguments agree for all kernels exactly when none of those shares storage with another argument, one of the two being symbolic |
| `CudaGraphInputs.AliasedInputsDiffer` | vllm/compilation/backends.py:79-84 | two symbolic inputs in one storage: directly the second shows what was written to the first, in the buffers it does not |
| `CudaGraphRuns.MoveAgrees` | vllm/compilation/backends.py:71-84 | one call of a run, with inputs at any admissible addresses on either side: the copy succeeds, results agree with the direct call, and both sides have the same fixed contents again behind it |
| `CudaGraphRuns.RunsAgree` | vllm/compilation/cuda_graph.py:207-309 | for every sequence of calls with changing modes, descriptors, capture outcomes, and inputs wherever the caller puts them, the wrapped side and the direct side see the same results call by call, and no address assertion fails |
| `CudaGraphRuns.CapturedTensorsFollow` | vllm/compilation/cuda_graph.py:285-309 | over every run, the tensors that a capturing call returned hold, after each later replay of its descriptor, what the direct call gives |
| `CudaGraphRuns.PlacedRunsAgree` | vllm/compilation/cuda_graph.py:207-309 | in particular when the inputs are allocated anew for each call, within the capacity of the buffers |
| `CudaGraphNesting.OnlyContextModeActs` | vllm/compilation/cuda_graph.py:212-222 | with wrappers nested to any depth, and failures anywhere, only wrappers of the context's mode capture or replay |
| `CudaGraphNesting.InvokeConsistent` | vllm/compilation/cuda_graph.py:225-295 | one forward pass through nested wrappers, in which any wrapper may be refused its capture and any piece may raise at any point, keeps captures unique and the counter equal to the graphs held, changes no held graph, and adds graphs only inside the callable and for the pass's descriptor |
| `CudaGraphNesting.RunsConsistent` | vllm/compilation/cuda_graph.py:212-295 | over every run of such passes each wrapper captures each descriptor at most once and the counter is the number of graphs held |
| `CudaGraphNesting.InvokeIsCall` | vllm/compilation/cuda_graph.py:207-309 | one wrapper over one piece behaves as the single wrapper does: same memory, graphs, recorded addresses and counter, and it returns exactly when that does |
| `CudaGraphPieces.InvokeKept` | vllm/compilation/cuda_graph.py:247-309 | every pass keeps each held graph a recording of exactly its wrapper's pieces, on the descriptor's arguments and with temporaries of its own; a capture executes nothing |
| `CudaGraphPieces.ReplayMatches` | vllm/compilation/cuda_graph.py:308-309 | a replayed graph leaves in the arguments what running its pieces eagerly leaves |
| `CudaGraphPieces.InvokeMatches` | vllm/compilation/cuda_graph.py:207-309 | a pass through nested wrappers that returns and captures nothing leaves in the arguments what running all pieces eagerly leaves, whichever wrappers replayed |
| `CudaGraphPieces.NestedRunsMatch` | vllm/compilation/cuda_graph.py:207-309 | the same for every pass of every run, with FULL around PIECEWISE wrappers or any other nesting, changing modes and failures anywhere |
| `PartitionSignature.GetGraphPartitionSignature` | vllm/env_override.py:102-240 | the backward loop returns, in schedule order, the signatures defined by the names unmet behind each partition, each with its own skip flag and each input marked deallocated exactly when some node of the partition uses it last; it raises exactly when some output is no known buffer |
| `PartitionSignature.SignatureSays` | vllm/env_override.py:157-232 | name by name: which names are inputs, which are constants, and which inputs are deallocated |
| `PartitionSignature.NoneLayoutIff` | vllm/env_override.py:119-137 | a name is NoneLayout exactly when it has no storage and, if a mutation gave it, what was mutated has none either |
| `PartitionSignature.SignPartition` | vllm/env_override.py:142-238 | one round gives the partition's signature and the names unmet in front of it |
| `PartitionRuns.OutputsAlwaysKnown` | vllm/env_override.py:213-217 | in a scheduled graph looking up an output never raises |
| `PartitionRuns.InputNotOutput` | vllm/env_override.py:157-184 | no declared input of a partition is made by it or goes by a renamed name |
| `PartitionRuns.NoneLayoutInputIff` | vllm/env_override.py:157-184 | a name without storage becomes an input exactly when the partition frees it, does not output it and the graph knows it |
| `PartitionRuns.InputsOwnStorageIff` | vllm/env_override.py:119-184 | the promise that no name without storage is taken as input is kept exactly when the partition frees no such name but its own outputs |
| `PartitionRuns.FrontNotProduced` | vllm/env_override.py:236-238 | a storage still unmet in front of a partition is made by no partition from there on; in front of the first, by none at all |
| `PartitionRuns.FrontProducedIff` | vllm/env_override.py:209-238 | a name that some partition makes is still unmet at the front exactly when it is a graph output under a renamed name |
| `PartitionRuns.RenamedOutputStaysUnmet` | vllm/env_override.py:209-238 | a scheduled graph of two partitions, one mutating the other's buffer, in which that happens |
| `PartitionRuns.LiveAllocatedReturned` | vllm/env_override.py:147-217 | whatever a partition allocates and a later partition uses or frees, or the graph outputs, is handed back by it |
| `PartitionRuns.LiveMadeReturned` | vllm/env_override.py:197-217 | the same for storages that the partition mutates |
| `PartitionRuns.ReturnedIff` | vllm/env_override.py:147-217 | a partition hands back exactly the storages it writes that are live behind it and the known inputs it does not free |
| `PartitionRuns.PartitionKeepsBoundary` | vllm/env_override.py:157-217 | a partition whose inputs own storage, run in a scope holding only its declared inputs, succeeds, and afterwards the caller holds every live storage with its unpartitioned value |
| `PartitionRuns.ForeignFreeFails` | vllm/env_override.py:179-195 | if some partition frees a known name without storage that it does not output, the partitioned run fails, whatever else the graph does |
| `PartitionRuns.SignaturesSuffice` | vllm/env_override.py:102-240 | for every scheduled graph, meaning of its kernels and initial scope of storages in which the unpartitioned graph runs: the partitions run from their declared inputs and every graph output owning storage has its unpartitioned value, exactly when no partition frees a known NoneLayout name that it does not itself output |
| `PartitionRuns.ScopesAgree` | vllm/env_override.py:157-238 | behind every partition the caller holds every live storage with its unpartitioned value, and no known storage that the unpartitioned run has freed by then |
| `PartitionRuns.ForeignFreeBreaks` | vllm/env_override.py:179-195 | a scheduled graph of two partitions that runs as a whole and fails partitioned, its second signature listing a NoneLayout input |
| `Logprobs.LastWins` | vllm/logprobs.py:113-120 | of the items stored for a position, the dictionary read back holds exactly the last with each token id |
| `Logprobs.GetItemIsListIndexing` | vllm/logprobs.py:110-120 | indexing the container is indexing the list of dictionaries, negative indices and IndexError included |
| `Logprobs.GrownValue` | vllm/logprobs.py:63-93 | growing the arrays by some items appends exactly their dictionary and keeps the ranges well formed |
| `Logprobs.FlatLogprobs.Append` | vllm/logprobs.py:63-72 | appends exactly the given dictionary, or an empty one for None |
| `Logprobs.FlatLogprobs.AppendFast` | vllm/logprobs.py:74-93 | appends the dictionary of the zipped items, though repeated tokens are stored twice |
| `Logprobs.FlatLogprobs.Extend` | vllm/logprobs.py:95-98 | appends every given position in order and keeps what was there |
| `Logprobs.FlatLogprobs.ExtendFlat` | vllm/logprobs.py:95-98 | extending by a container, itself included, appends its old contents once |
| `Logprobs.FlatLogprobs.At` | vllm/logprobs.py:110-120 | reads the position counted from the front, or from the end with a negative index, and fails outside |
| `Logprobs.FlatLogprobs.Iterate` | vllm/logprobs.py:146-152 | iterating gives the list of dictionaries |
| `Logprobs.AppendLogprobsForNextPosition` | vllm/logprobs.py:175-206 | the flat branch stores the dictionary that the list branch stores: it holds exactly, for each token, its last occurrence with its logprob and text, the sampled token with its own rank and the i-th candidate with rank i, up to the requested number of candidates or all for -1 |
| `Logprobs.SelectedExactly` | vllm/logprobs.py:121-128 | a slice selects the positions first, first + step, ... short of the stop, by Python's rules for missing, negative and excessive bounds |
| `Logprobs.AscendingSlice` | vllm/logprobs.py:121-133 | a non-empty ascending slice is a well-formed container that stands for the slice of the list |
| `Logprobs.DescendingSlice` | vllm/logprobs.py:121-133 | a descending slice of two or more positions reads back correctly exactly when all of them are empty |
| `Logprobs.ReversedSliceLosesItems` | vllm/logprobs.py:122-123 | two one-token positions, reversed, do not read back |
| `Logprobs.SliceCorrectIff` | vllm/logprobs.py:121-133 | for every slice, it raises exactly on an empty selection, and reads back as the list slice exactly when the step is positive, one position is selected or all selected ones are empty |
| `RequestOutputs.CompletionOutput.MergeWith` | vllm/outputs.py:158-171 | the merging branch, field by field, up to the failing assertion on logprobs |
| `RequestOutputs.RequestOutput.AddCompletion` | vllm/outputs.py:154-176 | one completion is merged into, or replaces, the first with its index, or is appended |
| `RequestOutputs.RequestOutput.Add` | vllm/outputs.py:148-176 | the whole delta is added in order up to the first failed assertion, also when the two outputs share completion objects or are the same output; `finished` is or-ed, and no object is listed twice |
| `RequestOutputs.RequestOutput.AddCompletions` | vllm/outputs.py:154-176 | the outer loop is the fold of the inner one over the delta's values as they were before the call |
| `RequestOutputs.AddAllFolds` | vllm/outputs.py:154-176 | indices stay unique in order of first appearance; aggregating succeeds exactly when no completion that started without logprobs is sent some, and then keeps per index the concatenated texts, tokens and logprobs with the last reasons; replacing keeps the newest |
| `RequestOutputs.FoldGathers` | vllm/outputs.py:148-176 | the same over a whole stream of deltas; the output is finished exactly when some delta or the start was, and has the last transfer parameters |
| `RequestOutputs.FoldIsAddAll` | vllm/outputs.py:148-176 | adding deltas one by one is adding all their completions at once, failures included |
| `RequestOutputs.AddAssociative` | vllm/outputs.py:148-176 | merging is associative, in success and in value, whenever the later two merge |
| `BadWords.NoBadWordsLogitsProcessor.CheckTokenIdsBounds` | vllm/logits_process.py:106-121 | succeeds exactly when every token of every bad word is in the vocabulary |
| `BadWords.NoBadWordsLogitsProcessor.InitWordBias` | vllm/logits_process.py:89-104 | the cached bias is minus infinity exactly at the one-token bad words |
| `BadWords.NoBadWordsLogitsProcessor.LastTokenBias` | vllm/logits_process.py:64-83 | the step's bias is minus infinity exactly at the tokens completing a longer bad word; it raises exactly on an empty bad word or a last token beyond the logits |
| `BadWords.NoBadWordsLogitsProcessor.Process` | vllm/logits_process.py:56-87 | on every call, with logits of the vocabulary's size, the logits are masked exactly at completing tokens, and it raises exactly on words outside the vocabulary or empty words; for other sizes, exactly when it raises and what broadcasting then masks |
| `BadWords.CompletesSplit` | vllm/logits_process.py:61-87 | one-token words and prefix matches together are exactly the tokens that would complete a bad word |
| `BadWords.MaskedFinite` | vllm/logits_process.py:61-87 | a finite logit becomes minus infinity exactly when its token completes a bad word, and is otherwise unchanged |
| `BadWords.ChosenIff` | vllm/logits_process.py:56-87 | a token can be chosen exactly when it completes no bad word and its own logit allows it |
| `BadWords.GenerationHasNoBadWord` | vllm/logits_process.py:56-104 | no generation of tokens above minus infinity contains a bad word as a contiguous run, at any length and for any overlapping bad words |
| `BadWords.GeneratedIff` | vllm/logits_process.py:56-104 | conversely every token sequence without bad words can still be generated |
| `ScalarTypes.OrAndAdvance` | vllm/scalar_type.py:146-151 | or-ing a masked field in at the offset adds it above everything already set |
| `ScalarTypes.Registry.Id` | vllm/scalar_type.py:136-164 | the id holds exponent, mantissa, sign, bias, finiteness and NaN kind from the lowest bit up in 8, 8, 1, 32, 1 and 8 bits; it fits 64 bits, and exactly this type is registered under it |
| `ScalarTypes.Registry.FromId` | vllm/scalar_type.py:308-312 | returns the registered type, or raises exactly when the id is not registered |
| `ScalarTypes.UnpackPack` | vllm/scalar_type.py:143-158 | every field that fits, a negative bias included, is read back from the id |
| `ScalarTypes.PackCollides` | vllm/scalar_type.py:143-158 | two types share an id exactly when they agree in all the bits kept |
| `ScalarTypes.PackFits` | vllm/scalar_type.py:153-160 | every id fits in 58 bits |
| `ScalarTypes.FromIdIsLastAgreeing` | vllm/scalar_type.py:308-312 | after any registrations, `from_id` of a type's id is the last registered type that agrees with it in the bits kept |
| `ScalarTypes.FromIdOfId` | vllm/scalar_type.py:308-312 | it is the type itself exactly when the last agreeing one is, which holds whenever all fields fit |
| `ScalarTypes.WideTypeTakesOver` | vllm/scalar_type.py:146-164 | an exponent field one bit too wide takes over another type's id |
| `FloatMax.MaxRaisesIff` | vllm/scalar_type.py:71-125 | no maximum is computed exactly with more than 52 mantissa or 11 exponent bits, 11 exponent bits outside IEEE formats, or no mantissa bits in a format that keeps a NaN; a minimum needs a sign as well |
| `FloatMax.MaxDecodes` | vllm/scalar_type.py:85-125 | the 64-bit pattern decodes to the format's top encoding read as a normal number, and with the sign bit to its negation |
| `FloatMax.TopEncoding` | vllm/scalar_type.py:76-85 | that value is attained by a finite encoding and bounds all finite encodings |
| `FloatMax.OneBitIeee` | vllm/scalar_type.py:80-98 | with one exponent bit every finite IEEE value is below the computed one |
| `FloatMax.FiniteIeee` | vllm/scalar_type.py:80-85 | an IEEE format without infinities has a finite value above the computed one |
| `FloatMax.MaxIsLargestIff` | vllm/scalar_type.py:71-125 | over all signed finite encodings of the format, the computed maximum is the largest value and the computed minimum the smallest, except exactly for IEEE formats with one exponent bit or without infinities |
| `ArtifactStore.NameOfKey` | vllm/compilation/caching.py:108-111 | the submodule name is recovered from a cache key exactly when the shape has no underscore |
| `ArtifactStore.KeysCollideIff` | vllm/compilation/caching.py:58 | two pairs share a key exactly when they are equal or one has moved an underscore and what precedes it from shape to name |
| `ArtifactStore.KeyInjective` | vllm/compilation/caching.py:58 | so with underscore-free shapes a key determines name and shape |
| `ArtifactStore.UnderscoredShapesCollide` | vllm/compilation/caching.py:58 | two different pairs with one key |
| `ArtifactStore.StandaloneCompiledArtifacts.Insert` | vllm/compilation/caching.py:54-77 | extends the history by this insertion, keeps the store tied to the whole history, and stores repeated content once |
| `ArtifactStore.StandaloneCompiledArtifacts.Get` | vllm/compilation/caching.py:79-87 | returns the first bytes with the digest of the last inserted under the key; with no collisions and underscore-free shapes, the last bytes inserted for the pair, or a KeyError exactly when there are none |
| `ArtifactStore.StandaloneCompiledArtifacts.GetLoaded` | vllm/compilation/caching.py:89-97 | it succeeds exactly when the digest of the last bytes under the key is loaded, and without collisions returns the module loaded from the last bytes inserted for the pair |
| `ArtifactStore.StandaloneCompiledArtifacts.LoadAll` | vllm/compilation/caching.py:113-133 | afterwards, early return included, every stored digest has the module loaded from its own bytes |
| `ArtifactStore.LoadedEnough` | vllm/compilation/caching.py:117-118 | equal sizes mean that everything stored is loaded |
| `ArtifactStore.StandaloneCompiledArtifacts.NumArtifacts` | vllm/compilation/caching.py:102-103 | without collisions, the number of distinct contents ever inserted |
| `ArtifactStore.StandaloneCompiledArtifacts.SizeBytes` | vllm/compilation/caching.py:99-100 | without collisions, the total length of the distinct contents, each once |
| `ArtifactStore.StandaloneCompiledArtifacts.NumEntries` | vllm/compilation/caching.py:105-106 | the number of distinct keys ever inserted |
| `ArtifactStore.StandaloneCompiledArtifacts.SubmoduleNames` | vllm/compilation/caching.py:108-111 | with underscore-free shapes, the inserted names without duplicates in order of first insertion |
| `ArtifactStore.StandaloneCompiledArtifacts.SetState` | vllm/compilation/caching.py:135-144 | unpickling keeps the whole history of insertions and forgets the loaded modules |
| `ArtifactStore.StoredOnce` | vllm/compilation/caching.py:54-60 | the stored values in order are the distinct contents in order of first insertion |
| `ArtifactStore.StoredIsLast` | vllm/compilation/caching.py:79-87 | without collisions the bytes behind a key are the last inserted under it |
| `ArtifactStore.NamesRecovered` | vllm/compilation/caching.py:108-111 | removing duplicates from the names of the distinct keys is removing duplicates from the inserted names |
| `MultiModalSampler.NormalizesIff` | vllm/benchmarks/datasets.py:902-921 | normalising succeeds exactly on non-negative weights that are not all zero |
| `MultiModalSampler.NormalizedWeights` | vllm/benchmarks/datasets.py:919-921 | the result is a distribution of positive weights summing to one, each the config's share of the total |
| `MultiModalSampler.NormalizedConfigs` | vllm/benchmarks/datasets.py:912-913 | it keeps exactly the configs of positive weight |
| `MultiModalSampler.GetMmItemSamplingParams` | vllm/benchmarks/datasets.py:947-1020 | the exact condition for success, the exact range and limits, and that the result meets what the iterator relies on: every bucket has frames and the limit of its kind, and exactly the kinds that can be drawn, one frame an image and more a video, keep their limits; the "no valid limits" error is unreachable |
| `MultiModalSampler.LimitedByFrames` | vllm/benchmarks/datasets.py:893-985 | which limits are required and which are used, in terms of frames |
| `MultiModalSampler.AllAtLimit` | vllm/benchmarks/datasets.py:1070-1077 | if every bucket's modality is at its limit, no item is missing |
| `MultiModalSampler.NeverExhausted` | vllm/benchmarks/datasets.py:1064-1079 | while items are missing, dropping a modality at its limit leaves something to draw |
| `MultiModalSampler.DropModality` | vllm/benchmarks/datasets.py:1064-1081 | what is left renormalises to a distribution, and every bucket dropped so far has its modality at its limit |
| `MultiModalSampler.GetMmItemIterator` | vllm/benchmarks/datasets.py:1022-1081 | for every sequence of draws it terminates with exactly the requested number of items, all from the buckets, single-frame items within the image limit and the others within the video limit (zero for a negative one), and the "exhausted" break is unreachable |
| `Lockstep.ShardCovers` | vllm/forward_context.py:61-66 | a DP rank's shards cover its tokens with less than `sp_size` of padding |
| `Lockstep.ShardAt` | vllm/forward_context.py:64-69 | position `i * sp_size + k` holds the shard of DP rank i for its SP rank k, and there are no other positions |
| `Lockstep.ShardsCoverAll` | vllm/forward_context.py:61-69 | all shards together cover all tokens with less than `sp_size` of padding per DP rank |
| `Lockstep.CuTokensArePrefixSums` | vllm/forward_context.py:179-184 | each entry is the sum of all earlier shards plus the rank's own |
| `Lockstep.ComputeChunkedLocalNumTokens` | vllm/forward_context.py:72-87 | the loop gives every rank the size of its chunk |
| `Lockstep.ChunkInBounds` | vllm/forward_context.py:81-86 | every chunk of every rank holds between one token and the limit |
| `Lockstep.ChunksAddUp` | vllm/forward_context.py:81-86 | any number of chunks of a rank sum to the tokens they cover plus one dummy per chunk past its end |
| `Lockstep.EnoughChunks` | vllm/forward_context.py:81-86 | a rank is done exactly when it ran at least the ceiling of tokens over limit chunks |
| `Lockstep.AllRanksFinish` | vllm/forward_context.py:119-150 | with chunks enough for the largest rank every rank finishes after the same number of chunks |
| `IndexRanges.FormatIndexRanges` | vllm/model_inspection.py:44-58 | for every list of integers, negative ones included: the string is the printed form of ranges, reading it back gives them, they expand to exactly the sorted indices with duplicates, and none extends into the next; an empty list raises |
| `IndexRanges.SortSorts` | vllm/model_inspection.py:46 | the sorted list is ordered and a permutation |
| `IndexRanges.RangeReads` | vllm/model_inspection.py:54-57 | a single index is printed alone, a range as its two ends, and both read back |
| `IndexRanges.PrintedReads` | vllm/model_inspection.py:54-58 | a printed list of ranges, separated by a comma and a space, reads back as itself |
| `IndexRanges.MaximalUnique` | vllm/model_inspection.py:50-57 | indices have only one such list of ranges, so the printed form is determined |

## Left out

- `torch.fx.passes.split_module` itself: the model takes from it that subgraphs run in ascending id with original node order inside each. `getitem` with an index that is itself a node, or on a tensor, is not modelled.
- Weak references, memory pools, garbage-collection patching and streams in CUDA graph capture; a captured graph keeps its temporaries to itself, whereas the real pool lets graphs share memory.
- CudaGraphReplay.CallMatchesDirect: covers results and fixed arguments; what happens to the caller's own inputs is `CudaGraphInputs.InputsAgreeIff`, and arguments that share storage are `CudaGraphInputs.AgreeIffNoClash`.
- CudaGraphReplay.CallKeepsValid: tensors have one dimension of rows, and the shapes are determined by the batch descriptor, as the wrapper trusts its caller to ensure.
- CudaGraphWrapper.CopyAndCaller.Invoke: keyword arguments are not modelled.
- CudaGraphPieces.NestedRunsMatch: pieces hand on their results through their common arguments, not through returned tensors, and the static copies in front of the pieces are not part of it.
- `symbol_inputs`, the order kept by OrderedSet, and WeakDep in partition signatures. `mutation_real_name` is taken as fully resolved.
- PartitionRuns.ScopesAgree: the initial scope holds nothing that a partition allocates, as graph inputs and constants do not.
- PartitionRuns.SignaturesSuffice: assumes what a schedule guarantees (unique producers, no use or mutation after a free, frees by real name and never of graph outputs).
- Logprobs.FlatLogprobs.Append: floats are reals; `__setitem__`, `__delitem__` and `insert` only raise and are not modelled.
- RequestOutputs.RequestOutput.Add: outputs that share objects must have no index twice; list aliasing of token ids, LoRA requests and routed experts are not modelled.
- BadWords.NoBadWordsLogitsProcessor.Process: rounding of finite logits is not modelled, and neither is the tokenizer that builds the list of bad words.
- FloatMax.MaxIsLargestIff: for formats that are neither IEEE nor finite-only the source does not say which encodings are infinite, so nothing is claimed; integer types, `has_nans`, `is_ieee_754` and `__str__` are not modelled.
- ArtifactStore.StandaloneCompiledArtifacts.LoadAll: the thread pool is a loop, and loading is a function that does not fail.
- MultiModalSampler.GetMmItemIterator: probabilities are exact reals, every choice of positive probability is covered and its likelihood is not modelled; generating images and videos and the sampling of prompts are left out.
- Lockstep.ComputeChunkedLocalNumTokens: the context managers around it, which set and reset one field, are left out as easy.
- Compiler caches on disk, pickling of compiled functions, logging, metrics, environment variables, configuration checks and all kernels.
