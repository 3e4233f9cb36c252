# IntelNav: proofs about split decoding, sliced weights and the protocols around them

IntelNav cuts a transformer into runs of layers, serves the runs from peers, and ships the weights as
content-addressed chunks. This project models the logic of both halves in Dafny 4.11 and proves what the
program relies on. `dafny verify dfyconfig.toml` checks all of it.

**Decoding.** `transformer.dfy` is a causal layer stack: each layer is an abstract function of the cache
cells it may see, the absolute position and the incoming row; the cache is a sequence of cells per layer.
`pipeline.dfy` puts a chain of peers behind a driver, on values; the wire is any function of a row, applied
twice per hop. `backend.dfy`, `peer.dfy`, `chain.dfy`, `turn.dfy` and `speculative.dfy` are the objects of
the program, updated in place and proved against those values. What the values mean is settled without them:
`reference.dfy` works a prefill out position by position, with no cache and no batch, and every split over
every wire computes that (`PrefillIs`); `payloads.dfy` shows that the two messages of a hop are that wire
(`HopOverPayloads`); and a turn is told draw by draw (`TurnIsGenerated`). The main results: a batch is its
tokens one by one, through every peer and every lossy wire (`DecodeBatch`, `ChainBatch`, `PrefillExtends`);
rejected tokens leave no trace after the rollback (`RollbackUndoes`, `PrefillRollback`); a chain over any
valid split list computes what one machine computes (`SplitIsMonolith`, `OpenedTiles`); and speculative
decoding generates the target's greedy tokens whatever the draft model proposes and however the overlap of
draft and network is scheduled (`Overlap`, `Round`, `RunTurnSpec`). The backend's one-line primitives (reset,
truncate, embed, head) carry contracts but no rows below.

One stated contract is false of the code. `crates/runtime/src/spec.rs:20-23` promises the exact tokens of
`run_turn`. When an end-of-sequence token turns up within the budget, `run_turn` drops it
(`crates/runtime/src/chain.rs:524`) and `run_turn_spec` pushes it (`crates/runtime/src/spec.rs:207-220`).
`SpecTurnIsTurn` says exactly how the two differ, `SameTokensIff` that they agree if and only if no
end-of-sequence token turns up within the budget, `SameTokensFails` gives an input.

**Weights.** `gguf.dfy` is the grammar of the GGUF version 3 container, `gguf_print.dfy` its printer,
`gguf_reader.dfy` and `gguf_tensors.dfy` the cursor-driven reader, `chunker.dfy` the splitter into bundles,
`stitch.dfy` the assembler of a layer range. `layout.dfy`, `unicode.dfy`, `placement.dfy` and `declared.dfy`
say on bytes and single entries what the grammar, the names and the metadata come to, without the functions
that parse, route and rewrite them. The main results: printing and parsing are inverse
(`HeaderParses`, `KvPrints`); the derived sizes tile the data region (`SizesTile`); chunking a file, stitching
any range of it and parsing the result gives back the range (`StitchedSlice`); cutting a model conserves its
tensors (`ConservedIff`), each in the slice its name calls for (`EmbeddingGoesFirst`, `OthersGoLast`,
`BlockGoesToItsRange`, on the bytes of the names); a stitched file declares its own range (`SliceDeclares`);
and the stitched file computes, layer by layer, what the source file computes there
(`StitchedServes`). `fetch.dfy` shows that a peer downloads what its stitch will open (`FetchedSupplies`).
`serving.dfy` puts both halves together: peers that fetch, stitch and load their own ranges of a published
file generate, behind any valid split list, the tokens that file gives on one machine
(`FetchedTurnIsLocalTurn`).

Four promises of this half hold under a condition a caller can look up beforehand, and the lemmas give it in
both directions: a stitched file parses unless the two added flags push its metadata count over the parser's
cap; a renumbered name can be shifted back only if it was canonical; a tensor survives a cut unless it is a
block past the declared layer count; and every tensor is cut inside the file when all offsets land there, or
all wrap around into it.
Each has a lemma at an input that fails (`FullMetadataFails`, `RenameCollides`, `PastBlockIsLost`,
`PastRegion`).

**Around them.** `base58.dfy` (in-place base conversion, round trips, lengths of peer identifiers),
`hidden.dfy` (8-bit rows over exact reals, and that the payload round trips are wires of the pipeline),
`p2p.dfy` (the swarm driver over every order of events), `lifecycle.dfy` (announce, drain, stop, and chain
guards), `frames.dfy` (framing over an arbitrarily fragmented stream), `wrap.dfy` (the input box's four
loops), `prose.dfy` (the transcript's word wrap), `sampler.dfy` (repeat penalty and nucleus sampling).

Three more promises are false of the code. The four loops of the input box are said to match
(`crates/app/src/tui/wrap.rs:278-306`), and do unless a counter wraps or a character is wider than the box
(`AgreeIff`, `ManyLinesDisagree`). The repeat penalty is said to apply to each token of the window
(`crates/runtime/src/sample.rs:93-96`), and applies to each occurrence (`PenalizedOnceIff`, `TwicePenalized`).
And a stopped slice may still serve a chain, since a force-stop resets the
count under live guards. `StoppedServesNobodyIff` says when it cannot, as long as fewer than 2^32 guards of a
slice are held at once; `StoppedWhileServing` and `SaturatedStops` are runs in which it does.

## Model

| member | source | states |
|---|---|---|
| Transformer.BelowHides | crates/runtime/src/ggml_backend.rs:263-267 | cells at or after a cut-off are invisible below it: the causal mask and the rollback are the same filter |
| Transformer.DecodeBatch | crates/runtime/src/ggml_backend.rs:181-200 | a layer-major forward of a batch leaves the cache and the rows of its two halves run in turn, from any cache |
| Transformer.DecodeLayers | crates/runtime/src/pipeline.rs:33-58 | running a run of layers is running its front part and then its back part |
| Transformer.DecodeAgrees | crates/app/src/forward_server.rs:210-213 | two files whose layers agree under shifted numbering compute the same over those layers |
| Transformer.DecodeCovers | crates/runtime/src/ggml_backend.rs:181-200 | a forward at the end of the cache adds exactly one cell per row and layer, in position order |
| Transformer.RollbackUndoes | crates/runtime/src/ggml_backend.rs:263-267 | rolling back to where a forward started restores every layer's cache |
| Transformer.RollbackNothing | crates/runtime/src/spec.rs:227-229 | rolling back to the current length changes nothing |
| Transformer.Argmax | crates/ggml/src/hidden.rs:102-118 | the result is the first index of a largest logit |
| Pipeline.HopBatch | crates/app/src/forward_server.rs:198-217 | one request with a batch is two requests with its halves, in cache, position counter and reply |
| Pipeline.ChainBatch | crates/runtime/src/chain.rs:266-379 | the same through the whole chain, for any wire and any state of the peers |
| Pipeline.ChainRollback | crates/runtime/src/chain.rs:263-271 | a step in which every peer rolls back first is the step the peers would have made without the rolled back rows |
| Pipeline.PeerRollTo | crates/app/src/forward_server.rs:198-201 | rolling one peer back puts its cache and its position where the shorter prefill left them |
| Pipeline.PrefillCovers | crates/runtime/src/spec.rs:122-140 | after a prefill the front cache, every peer's cache and every peer's position counter stand at the number of tokens |
| Pipeline.PrefillExtends | crates/runtime/src/chain.rs:515-537 | stepping on from a prefill of a with b is the prefill of a + b, caches and rows alike |
| Pipeline.PrefillRollback | crates/runtime/src/spec.rs:226-264 | after a + b, rolling back to a and stepping with c is the prefill of a + c: rejected tokens leave no trace |
| Pipeline.TailIsNextLogits | crates/runtime/src/spec.rs:155-167 | the head on an earlier row of a batched step gives the logits of the shorter sequence |
| Pipeline.ChainIsLayers | crates/runtime/src/chain.rs:266-379 | over a lossless wire, stages that tile a run of layers compute that run and leave its caches |
| Pipeline.SplitIsMonolith | crates/runtime/src/pipeline.rs:33-41 | front slice, chain and head compute the rows of the unsplit model and leave each layer the same cache |
| Reference.DecodeIs | crates/runtime/src/ggml_backend.rs:181-200 | from an empty cache every layer computes, at each position, what it makes of the rows it received up to and with that position, and its cache keeps those rows |
| Reference.PrefillIs | crates/runtime/src/chain.rs:266-379 | for any split and any wire the driver's caches, every peer's caches, the rows that come back and the next logits are those worked out without a cache: each peer receives the rows over the wire, runs all its layers on them and sends them over the wire |
| Reference.MonolithIs | crates/runtime/src/ggml_backend.rs:139-156 | on one machine layer l keeps a cell for the row it received at each position, and the head gets the row behind the last layer |
| Reference.NoLayersIsTwoCrossings | crates/app/src/forward_server.rs:202-217 | over any wire a peer without layers returns each row as two crossings leave it |
| Payloads.Transmit | crates/ggml/src/hidden.rs:157-279 | decoding what was encoded gives each row as the wire of the pipeline has it, for half floats and for 8-bit rows, exactly when count and size fit 64 bits |
| Payloads.HopOverPayloads | crates/runtime/src/chain.rs:277-360 | request and reply are both payloads: the peer serves the rows decoded from the driver's encoding, and the driver goes on with those decoded from the peer's; that is the hop over the wire those payloads make |
| Backends.Backend.ForwardRange | crates/runtime/src/ggml_backend.rs:181-200 | succeeds exactly for a batch of 1 to n_ctx rows, a legal range and that much room in every layer of it; the range's layers are decoded, the others untouched, and a failure changes nothing |
| Backends.Backend.HeadAll | crates/runtime/src/ggml_backend.rs:242-261 | the head of every row, in order |
| Backends.Backend.Forward | crates/runtime/src/ggml_backend.rs:139-156 | all layers, then the head on the last row; a failure changes nothing |
| Peers.Peer.SessionInit | crates/app/src/forward_server.rs:127-180 | a session starts at position 0 with an empty cache, on the full file or on a stitched one whose layers are numbered from 0 |
| Peers.Peer.ForwardHidden | crates/app/src/forward_server.rs:181-230 | wrong session and stale sequence number are refused without touching the cache; otherwise the rows are served after the requested rollback, exactly when batch, file and cache permit |
| Peers.Peer.RollAndForward | crates/app/src/forward_server.rs:198-214 | rollback and position reset, then the slice's layers at the session's own position, real layer numbers shifted to the file's |
| Chains.Layout.Encode | crates/runtime/src/chain.rs:397-405 | a batch is refused its frame when its payload is over 16 MiB and never when twice its payload and the other fields are within |
| Chains.LongPrefillRefused | crates/wire/src/lib.rs:136-140 | 600 rows of 16384 half floats fit no frame |
| Chains.Layout.CarriesIff | crates/wire/src/lib.rs:136-140 | a batch always fits a frame when twice its bytes and 256 more are within 16 MiB, and never when its bytes alone are over |
| Chains.Chain.constructor | crates/runtime/src/chain.rs:247-249 | links carry the peers' session ids and start at sequence number 0 |
| Chains.Chain.Hop | crates/runtime/src/chain.rs:277-376 | one request and reply serve exactly that peer, with a fresh sequence number; it succeeds when no message is lost, the rows fit a frame and the cache has room, and rows that fit no frame are refused before the peer sees them |
| Chains.Chain.HopOnward | crates/runtime/src/chain.rs:277-376 | a step under way moves on by one peer, or is refused its frame |
| Chains.Chain.StepWithTruncate | crates/runtime/src/chain.rs:266-379 | on success peers and rows are those of the step as a function; it succeeds whenever no message is lost, the batch fits a frame and every cache has room, and fails for every batch that fits none |
| Chains.SplitsRise | crates/runtime/src/chain.rs:157-181 | every range a valid split list hands out is nonempty and inside the model |
| Chains.ValidSplitsIff | crates/runtime/src/chain.rs:157-175 | a split list is valid exactly when it has one boundary a peer, increases throughout, starts behind 0 and ends inside the model |
| Chains.OpenedTiles | crates/runtime/src/chain.rs:177-181 | the ranges tile the layers behind the front slice, full and stitched files mixed at will, and every session is empty |
| Chains.OpenSession | crates/runtime/src/chain.rs:183-242 | a session opens exactly when the slice is announcing and the host can load a file for it, unless a message is lost |
| Chains.OpenSessions | crates/runtime/src/chain.rs:177-245 | sessions in split order on distinct peers, exactly when all announce and load, unless a message is lost |
| Chains.Connect | crates/runtime/src/chain.rs:147-250 | an invalid split list is refused; messages permitting, it succeeds exactly when the list is valid and every peer announces and loads its range; the chain is the one opened on those ranges |
| Turns.FrontForward | crates/runtime/src/chain.rs:458-468 | embedding and the driver's own layers, exactly when batch and cache permit |
| Turns.StepThrough | crates/runtime/src/chain.rs:531-533 | one forward through front slice and chain reaches the prefill of the longer sequence and returns its new rows |
| Turns.TurnIsGenerated | crates/runtime/src/chain.rs:518-537 | a turn generates exactly the tokens its draws give: the sampler starts from its seed, draw i is made from state i and the logits behind the tokens kept so far and leaves state i + 1, a token is kept until one ends the sequence or the budget is spent; greedy without penalty, the largest logit at every position |
| Turns.StepAndSample | crates/runtime/src/chain.rs:531-536 | the token drawn is the sampler's on the target's next logits |
| Turns.DecodeLoop | crates/runtime/src/chain.rs:522-539 | generates what the turn function says, a prefix of it on failure, and every cache ends at the kept tokens |
| Turns.RunTurn | crates/runtime/src/chain.rs:494-540 | a turn on a freshly connected chain generates the tokens its draws give, for every sampler, succeeds when prompt and caches permit, reports its failures, and fails for every prompt whose rows fit no frame |
| Turns.ForwardLocally | crates/runtime/src/generate.rs:116-131 | one unsplit forward reaches the prefill of the longer sequence |
| Turns.ForwardAndSample | crates/runtime/src/generate.rs:116-132 | the token drawn is the sampler's on the model's next logits |
| Turns.Generate | crates/runtime/src/generate.rs:97-136 | the single-process loop generates the tokens its draws on the unsplit model give, and the same turn function |
| Turns.ChainTurnIsLocalTurn | crates/runtime/src/chain.rs:494-540 | over a lossless wire a turn over the chain generates the tokens of the local loop, for every seed and sampling configuration |
| Turns.ConnectedTurnIsLocalTurn | crates/runtime/src/chain.rs:147-250 | the same for the chain opened on any valid split list |
| Speculative.MatchPrefix | crates/runtime/src/spec.rs:161-180 | the longest prefix of drafts the predictions confirm, and no longer |
| Speculative.CommitIsGreedy | crates/runtime/src/spec.rs:182-203 | matched prefix plus one token of the target's own is a greedy run of the target, for any drafts |
| Speculative.Emit | crates/runtime/src/spec.rs:205-224 | tokens are pushed up to the budget or through the end-of-sequence token, and nothing greedy is skipped |
| Speculative.DraftTask.Advance | crates/runtime/src/spec.rs:322-347 | on full acceptance the last draft and the committed token are fed, otherwise the cache is cut to the accepted prefix first; either way the draft continues the committed sequence |
| Speculative.DraftTask.Next | crates/runtime/src/spec.rs:291-307 | each action of the draft keeps its invariant and makes progress |
| Speculative.ProposeKDrafts | crates/runtime/src/spec.rs:291-307 | the proposals are the draft's own greedy continuation and its cache covers all but the last |
| Speculative.Overlap | crates/runtime/src/spec.rs:231-272 | whatever the interleaving of commit and draft, both end where each would have alone |
| Speculative.Verify | crates/runtime/src/spec.rs:155-203 | one batched step decides a commit that is greedy for the target; a rejected draft differs from the token that replaces it |
| Speculative.CommitFront | crates/runtime/src/spec.rs:226-230 | the front cache is cut back to the accepted prefix and takes the committed token |
| Speculative.CommitTail | crates/runtime/src/spec.rs:256-260 | the committed row sent through peers that roll back first yields the prefill of the committed sequence and its next logits |
| Speculative.CommitChain | crates/runtime/src/spec.rs:231-272 | commit step and draft together reach the committed sequence, and succeed whenever nothing prevents it |
| Speculative.Commit | crates/runtime/src/spec.rs:226-278 | after a round front cache, peers, pending logits, draft cache and drafts are at the top of the next round |
| Speculative.Round | crates/runtime/src/spec.rs:148-279 | a round adds between 1 and k + 1 greedy tokens and stops only when nothing is left to come |
| Speculative.Rounds | crates/runtime/src/spec.rs:147-281 | the loop ends and generates exactly the greedy tokens, for every draft model |
| Speculative.RunTurnSpec | crates/runtime/src/spec.rs:80-282 | k below 2, a temperature that is not 0 and a penalty above 1 are refused in this order; otherwise the turn generates the largest logit at every position through the end-of-sequence token, a prefix on failure; it succeeds when prompt, drafts and caches permit, and fails for every prompt whose rows fit no frame |
| Speculative.SpecTurnIsTurn | crates/runtime/src/spec.rs:20-23 | the speculative turn is the plain greedy turn plus, when that ends early, the end-of-sequence token that ended it |
| Speculative.SameTokensIff | crates/runtime/src/spec.rs:20-23 | the two turns are the same exactly when no end-of-sequence token turns up within the budget |
| Speculative.SameTokensFails | crates/runtime/src/spec.rs:207-220 | on a two-layer model behind a valid split list the plain turn is empty and the speculative one has the end-of-sequence token |
| Gguf.ParseKvStart | crates/model-store/src/gguf.rs:235-250 | a metadata record parses the same at any offset of any file |
| Gguf.ParseHeaderStart | crates/model-store/src/gguf.rs:198-271 | a header does not depend on the bytes behind its index |
| Gguf.ArrayLenIff | crates/model-store/src/gguf.rs:453-474 | an array of fixed-size elements is skipped by its true length, or refused for it, exactly when the 64-bit product of size and count does not wrap to something that fits |
| Gguf.WrappedArray | crates/model-store/src/gguf.rs:471-474 | an array of 2^61 eight-byte elements is skipped as if it had none |
| Gguf.AlignPastBase | crates/model-store/src/gguf.rs:483-489 | aligning past an aligned base is aligning the rest |
| Layouts.ScalarSizes | crates/model-store/src/gguf.rs:100-108 | the size of each of the thirteen value types |
| Layouts.StringArray | crates/model-store/src/gguf.rs:453-469 | an array of strings is skipped string by string, an array of arrays is refused |
| Layouts.RefusesFront | crates/model-store/src/gguf.rs:207-230 | short front, wrong magic, wrong version, more than 2^20 tensors and more than 2^16 entries are told apart, in this order |
| Layouts.SmallFile | crates/model-store/src/gguf.rs:198-286 | a file of one entry and one tensor, byte by byte, parses to them, and its data starts at the next multiple of 32 |
| Layouts.SmallFileData | crates/model-store/src/gguf.rs:353-377 | its tensor is the bytes from 128 on, and there is one exactly when the file is that long |
| Unicode.Utf8Iff | crates/model-store/src/gguf.rs:413-430 | a name is accepted as text exactly when it is the encoding of some sequence of code points other than surrogates |
| Bytes.LittleEndian | crates/model-store/src/gguf.rs:385-411 | counts and lengths are read least significant byte first |
| Printing.KvParses | crates/model-store/src/stitch.rs:401-416 | a printed metadata record parses back, whatever follows |
| Printing.TensorParses | crates/model-store/src/stitch.rs:229-239 | a printed index entry parses back, whatever follows |
| Printing.HeaderParses | crates/model-store/src/stitch.rs:241-250 | a printed header parses back exactly when its metadata count is under the cap |
| Printing.KvPrints | crates/model-store/src/stitch.rs:200-216 | a parsed record is what printing its entry gives, so copying it verbatim is printing it |
| Printing.HeaderIsGood | crates/model-store/src/gguf.rs:198-271 | whatever was parsed can be printed |
| Reader.Cursor.SkipKvValue | crates/model-store/src/gguf.rs:447-481 | the cursor moves past exactly the value, or fails the way the grammar does |
| Reader.Cursor.ReadKv | crates/model-store/src/gguf.rs:301-319 | key, type and value of the record at the cursor |
| Reader.Cursor.ReadTensor | crates/model-store/src/gguf.rs:332-352 | the index entry at the cursor |
| Reader.WalkKvs | crates/model-store/src/gguf.rs:231-251 | the whole metadata is walked and the last alignment entry wins |
| Reader.Open | crates/model-store/src/gguf.rs:198-286 | opening succeeds exactly when the header parses, and fails with the same error |
| Reader.KvEntries | crates/model-store/src/gguf.rs:296-322 | listing an open file cannot fail, and locates every entry's value and record |
| Regions.OrderSorted | crates/model-store/src/gguf.rs:357-358 | the index sort sorts |
| Regions.OrderCounts | crates/model-store/src/gguf.rs:357-358 | and is a permutation |
| Regions.OrderOfSorted | crates/model-store/src/gguf.rs:357-358 | and keeps equal offsets in index order |
| Regions.DeriveSizes | crates/model-store/src/gguf.rs:353-369 | each tensor runs to the next offset in sorted order, the last to the end of the file, in wrapping 64-bit arithmetic |
| Regions.Tensors | crates/model-store/src/gguf.rs:328-370 | the index of an open file with its derived sizes |
| Regions.SizesTile | crates/model-store/src/gguf.rs:353-369 | with all offsets inside the data the sizes add up to the region behind the smallest offset and no two tensors overlap, in any listing order |
| Regions.CutsFitIff | crates/model-store/src/gguf.rs:353-377 | every tensor is cut inside the file exactly when all offsets land in it behind the data start, or all wrap around 2^64 into it; for any data start and any file length |
| Regions.PastRegion | crates/model-store/src/gguf.rs:353-377 | an offset behind the end of the data gives a wrapped size and a cut that ends before it starts |
| Regions.WrappedCut | crates/model-store/src/gguf.rs:353-377 | an offset 32 short of 2^64 behind a 64-byte header is cut from byte 32 of a 96-byte file |
| Bytes.DecParse | crates/model-store/src/stitch.rs:311-316 | printing a parsed block number gives its text back exactly when it had no sign and no leading zero |
| Bundles.RestoreRename | crates/model-store/src/stitch.rs:306-321 | shifting a renumbered block back recovers its name exactly when the name was canonical |
| Bundles.RenameInjective | crates/model-store/src/stitch.rs:306-321 | canonical names stay distinct |
| Bundles.RenameCollides | crates/model-store/src/stitch.rs:306-321 | two spellings of one block number collide |
| Bundles.RenameGoodText | crates/model-store/src/stitch.rs:306-321 | a renumbered name is valid UTF-8 and no longer than before |
| Placement.ClassifyIs | crates/model-store/src/bundle.rs:42-67 | by its bytes, a name that starts with token_embd is the embedding's, one with blk. and a readable number is that block's, every other one the head's |
| Placement.RenameIs | crates/model-store/src/stitch.rs:306-321 | by its bytes, the number of a block goes down by the slice's start, not below 0, the rest of the name stays but for a bare dot, and every other name is kept |
| Placement.IncludesIs | crates/model-store/src/stitch.rs:133-147 | by its bytes, a bundle name is the embedding's, the head's, a block's in or out of the range, a block's without a number, or unknown |
| Routing.KindOrderLists | crates/model-store/src/chunker.rs:401-425 | the bundle table lists exactly the kinds that occur |
| Routing.KindOrderRanked | crates/model-store/src/chunker.rs:401-415 | embedding, blocks by number, head, without repetition |
| Routing.MatchingCounts | crates/model-store/src/chunker.rs:107-120 | a tensor is in its own kind's bundle once and in no other |
| Routing.RouteTensors | crates/model-store/src/chunker.rs:107-120 | every tensor is routed by its name, in index order, and the largest block number is found |
| ModelInfo.ReadModelInfo | crates/model-store/src/chunker.rs:82-105 | architecture and layer count are those of the last matching entries |
| Declared.BlockCountIs | crates/model-store/src/chunker.rs:91-105 | the last 32-bit entry whose key ends in .block_count gives the layer count, and without one there is none |
| Declared.ArchIs | crates/model-store/src/chunker.rs:91-96 | the last string entry of that key gives the architecture |
| Declared.TextIs | crates/model-store/src/chunker.rs:91-96 | a string value is its text behind an eight-byte length, if the text is valid |
| Declared.AlignmentIs | crates/model-store/src/gguf.rs:231-251 | the last 32-bit entry of that key gives the alignment, which is 32 without one |
| Chunker.MemberCut | crates/model-store/src/chunker.rs:180-206 | cutting a bundle at a member's place gives that tensor's bytes |
| Chunker.BuildBundle | crates/model-store/src/chunker.rs:165-233 | bundle bytes, sizes, offsets and hashes are those of its tensors end to end |
| Chunker.WriteBundles | crates/model-store/src/chunker.rs:122-233 | one bundle per kind in order, and a store in which every produced chunk has its name |
| Chunker.ChunkGguf | crates/model-store/src/chunker.rs:71-270 | fails as the parser does or when the header or a tensor is not cut inside the file in 64-bit arithmetic, and otherwise describes and stores the file exactly |
| Checking.VerifyChunks | crates/model-store/src/chunker.rs:277-357 | accepts exactly when header and bundles are present with their sizes and hashes and every member cuts to its own hash |
| Checking.VerifiesOwnOutput | crates/model-store/src/chunker.rs:277-357 | verification accepts what the chunker wrote, absent hash collisions among the chunks |
| Stitching.SelectBundles | crates/model-store/src/stitch.rs:133-162 | passes exactly when every bundle name is known and every taken bundle is there with its size |
| Stitching.KeepTensors | crates/model-store/src/stitch.rs:164-194 | the members of every taken bundle, cut out and renamed, or an overrun |
| Stitching.RewriteKvs | crates/model-store/src/stitch.rs:200-220 | records are copied verbatim, the layer count is replaced and two flags are appended |
| Stitching.BuildIndex | crates/model-store/src/stitch.rs:222-239 | index entries with recomputed aligned offsets |
| Stitching.WriteFile | crates/model-store/src/stitch.rs:252-283 | header, padding and padded tensors; the position check cannot fail for any sizes and any alignment |
| Stitching.StitchSubset | crates/model-store/src/stitch.rs:81-294 | a range is refused exactly when it runs backwards or past the layers, or has embedding or head without their ends; on success exactly the stitched file, never the drift error, and success whenever everything checked holds |
| StitchLaws.StitchedParses | crates/model-store/src/stitch.rs:200-253 | a stitched file parses to exactly what was written, unless its metadata count is over the cap |
| StitchLaws.NewKvsAlignment | crates/model-store/src/stitch.rs:200-225 | no rewritten or added entry changes the alignment |
| StitchLaws.SlotIsPadded | crates/model-store/src/stitch.rs:266-281 | a tensor's slot is its bytes and then zeros up to the alignment |
| StitchLaws.SlotsAreDerived | crates/model-store/src/gguf.rs:353-369 | the sizes the parser derives from the new offsets are the slots' sizes, empty tensors included |
| StitchLaws.StitchedData | crates/model-store/src/stitch.rs:252-283 | the tensors of the stitched file are the slots |
| Slices.KeptOfChunks | crates/model-store/src/stitch.rs:133-194 | stitching a chunked model keeps exactly the source tensors of the kinds the range takes |
| Slices.ConservedIff | crates/model-store/src/bundle.rs:42-67 | over any cut of the layers a tensor is in exactly one slice, once, exactly when it is not a block past the layer count |
| Placement.EmbeddingGoesFirst | crates/model-store/src/bundle.rs:54-55 | over any cut a tensor whose name starts with token_embd is in the first slice, once, and in no other |
| Placement.OthersGoLast | crates/model-store/src/bundle.rs:63-66 | one whose name starts with neither token_embd nor blk. is in the last slice and in no other |
| Placement.UnreadableGoesLast | crates/model-store/src/bundle.rs:59-62 | so is a block whose number cannot be read |
| Placement.BlockGoesToItsRange | crates/model-store/src/bundle.rs:56-61 | any other block is in the slice its number falls into and in no other |
| Slices.PastBlockIsLost | crates/model-store/src/bundle.rs:42-67 | block 5 of a model that declares one layer is in no slice |
| Slices.SliceNames | crates/model-store/src/stitch.rs:306-321 | names in a slice stay distinct and shift back to the source's |
| Slices.ChunkedIsStitchable | crates/model-store/src/stitch.rs:81-198 | a slice can be stitched from a store that supplies its range exactly when the model names its architecture and the slice holds a tensor |
| Slices.StitchedSlice | crates/model-store/src/stitch.rs:81-294 | chunk, stitch from a store that supplies the range, and parse give back the range, exactly when two more metadata entries stay under the cap |
| Declared.SliceDeclares | crates/model-store/src/stitch.rs:200-220 | parsed back, a stitched file keeps every entry of the source but the architecture's own layer count, which is the length of the range; it declares that count when the entry that decides is the architecture's own and the source's otherwise, keeps the architecture, and ends in two flags that are 1 exactly when it has embedding and head |
| Slices.StoreSupplies | crates/model-store/src/chunker.rs:122-233 | the chunker's own store supplies every range |
| Limits.FullMetadataFails | crates/model-store/src/stitch.rs:200-253 | a file with the most metadata entries a parser takes: its last slice can be chunked and stitched, and the stitched file is refused |
| Loading.SliceLayer | crates/app/src/forward_server.rs:210-213 | layer i of a stitched file holds the weights of layer start + i of the source |
| Loading.WeightIn | crates/model-store/src/bundle.rs:56-61 | a tensor is a weight of the layer its name gives, under the part of the name behind the number |
| Loading.WeightFrom | crates/model-store/src/bundle.rs:56-61 | and a layer has no other weights |
| Loading.LoadedIs | crates/app/src/forward_server.rs:248-300 | a loaded file computes each layer from that layer's weights |
| Loading.StitchedServes | crates/app/src/forward_server.rs:210-214 | whatever a backend makes of weights, a stitched file computes in its layers what the source computes in the range |
| Serving.TensorDataUnique | crates/model-store/src/gguf.rs:353-369 | a file determines its tensors' bytes |
| Serving.StitchesSlice | crates/app/src/forward_server.rs:302-331 | a peer that has carried out the plan for its range can stitch, and stitches the slice of the source |
| Serving.LoadsSlice | crates/app/src/forward_server.rs:248-300 | what it loads computes, layer by layer, the range of the source model |
| Serving.FetchedTurnIsLocalTurn | crates/app/src/forward_server.rs:248-331 | a turn over peers that hold the full file or fetched, stitched and loaded their range generates the tokens the source file gives on one machine |
| Serving.ExampleReady | crates/model-store/src/http.rs:184-244 | a two-layer file, its manifest and a peer that fetched the last layer, to which all of this applies |
| Fetching.ForRange | crates/model-store/src/http.rs:124-136 | embedding if the range starts at 0, its blocks, head if it ends at the last layer |
| Fetching.Dedup | crates/model-store/src/http.rs:449-452 | exactly the chunks that no earlier one shares its content id with, in order |
| Fetching.FirstOnlyKeeps | crates/model-store/src/http.rs:449-452 | no content id twice, every content id kept, each with the size it was first listed with |
| Fetching.SelectChunks | crates/model-store/src/http.rs:193-209 | fails exactly on an unknown name; otherwise the header and then the first bundle of every name, each content id once, in order |
| Fetching.SelectsPlanned | crates/model-store/src/http.rs:193-209 | without repeated names every planned bundle is downloaded |
| Fetching.PlanIsRange | crates/model-store/src/http.rs:118-136 | the plan names a bundle exactly when the range takes it |
| Fetching.FetchCoversStitch | crates/app/src/forward_server.rs:320-325 | every chunk the daemon's stitch opens is in the plan, and nothing else when both agree about the last layer |
| Fetching.FetchedIsReadable | crates/model-store/src/http.rs:184-244 | once a plan has been carried out the stitcher finds every bundle of the daemon's range with its size, if the manifest gives each content id one size |
| Fetching.FetchedSupplies | crates/model-store/src/http.rs:184-244 | carrying out the plan of a chunker's manifest supplies the daemon's range with the published bytes, absent hash collisions |
| Fetching.ChunkerNames | crates/model-store/src/chunker.rs:226-233 | the chunker's bundle names are the plan's, and no two alike |
| Base58.MulAdd | crates/core/src/ids.rs:167-178 | the in-place loops multiply and add, keep digits below the base and the top one nonzero, and leave in each old place the low digit of its accumulator |
| Base58.AccBound | crates/core/src/ids.rs:167-178 | no accumulator of those loops exceeds 14847, in either direction, so 32 bits are never left |
| Base58.ConvertBack | crates/core/src/ids.rs:156-224 | converting there and back is the identity in either direction, leading zeros included |
| Base58.Encode | crates/core/src/ids.rs:156-187 | the loops write the converted digits in the alphabet |
| Base58.Decode | crates/core/src/ids.rs:191-224 | fails exactly on a character whose low byte is not in the alphabet, and otherwise converts back |
| Base58.DecodeEncode | crates/core/src/ids.rs:156-224 | decoding inverts encoding on every byte string |
| Base58.EncodeDecodeIff | crates/core/src/ids.rs:201-208 | encoding inverts decoding exactly on strings over the alphabet |
| Base58.DotlessIDecodes | crates/core/src/ids.rs:202-207 | a character outside the alphabet that decodes |
| Base58.CodeIs | crates/core/src/ids.rs:146 | each digit is written as the character at its place in the alphabet |
| Base58.IndexIs | crates/core/src/ids.rs:201-208 | a code is read as the place of its character in the alphabet, and is no digit without one |
| Base58.EncodeIs | crates/core/src/ids.rs:156-187 | the text of a byte string is alphabet characters whose number, place by place, is that of the bytes, with as many leading `1` as there are leading zero bytes |
| Base58.KnownText | crates/core/src/ids.rs:156-187 | the byte 97 is `2g` |
| Base58.TextIsLonger | crates/core/src/ids.rs:156-187 | the text of a byte string is never shorter than the bytes |
| Base58.PeerTextLength | crates/core/src/ids.rs:23-30 | 32 bytes take 32 to 44 characters |
| Base58.ParsePeerId | crates/core/src/ids.rs:44-55 | text that does not decode, a length other than 32 and an identifier are told apart |
| Base58.ParseDisplay | crates/core/src/ids.rs:33-55 | parsing a displayed identifier gives it back |
| Base58.Short | crates/core/src/ids.rs:23-30 | six characters, an ellipsis, six characters, always inside the text |
| HiddenStates.NewHidden | crates/ggml/src/hidden.rs:45-59 | a state is accepted exactly when its shape is nonempty and multiplies to its length in 64-bit arithmetic |
| HiddenStates.NoClamp | crates/ggml/src/hidden.rs:213-217 | the clamp never bites |
| HiddenStates.RoundHalf | crates/ggml/src/hidden.rs:214-216 | halves are rounded away from zero |
| HiddenStates.TwosComplement | crates/ggml/src/hidden.rs:215-216 | a value is written as the byte of its two's complement and read back from it |
| HiddenStates.RoundTripError | crates/ggml/src/hidden.rs:195-220 | every value comes back within half the row's scale, 1/254 of its largest magnitude |
| HiddenStates.ZeroRow | crates/ggml/src/hidden.rs:202-206 | a row of zeros comes back as zeros |
| HiddenStates.Int8Idempotent | crates/ggml/src/hidden.rs:195-220 | re-encoding a decoded row gives the identical scale and values |
| HiddenStates.StoredScaleError | crates/ggml/src/hidden.rs:208-268 | a scale rounded on the wire costs each value at most 127 times its own error on top of the half step |
| HiddenStates.ExactScale | crates/ggml/src/hidden.rs:208-268 | with a scale that survives its word the row crosses as the exact codec has it |
| HiddenStates.EncodeInt8Rows | crates/ggml/src/hidden.rs:195-220 | all the scales, then all the values, row by row |
| HiddenStates.EncodeHidden | crates/ggml/src/hidden.rs:157-191 | overflow, wrong length and bf16 are refused |
| HiddenStates.DecodeHidden | crates/ggml/src/hidden.rs:228-279 | a payload is accepted exactly when its size is the one expected in 64-bit arithmetic, bf16 excepted; an 8-bit one whose true size does not fit 64 bits aborts |
| HiddenStates.EmptyRowsAbort | crates/ggml/src/hidden.rs:228-272 | an empty 8-bit payload for 2^62 rows of no values passes the size check and aborts |
| HiddenStates.HalfCountIff | crates/ggml/src/hidden.rs:232-253 | a half-float payload has as many values as its shape says exactly when twice that many fit 64 bits |
| HiddenStates.PayloadIsWire | crates/ggml/src/hidden.rs:195-279 | rows times 4 plus rows times width bytes, and the decoded values are the rows sent one by one over a wire: 8-bit values times the scale as stored, for any number layout |
| HiddenStates.HalfIsWire | crates/ggml/src/hidden.rs:172-254 | the decoded values of a half-float payload are the rows sent one by one over a wire that rounds each value, for any number layout |
| HiddenStates.SelectPosition | crates/ggml/src/hidden.rs:75-97 | every batch gives the stretch that starts at its position in 64-bit arithmetic; aborts exactly when one lies outside the data |
| HiddenStates.PlainPositions | crates/ggml/src/hidden.rs:75-97 | for a shape that does not wrap that is the position of row-major order, always inside the data |
| HiddenStates.ArgmaxLast | crates/ggml/src/hidden.rs:102-118 | the first largest value, as a position in the last axis |
| P2p.OnFetch | crates/model-store/src/p2p.rs:242-252 | a new query for the chunk and a new waiter; a pending fetch of the same chunk loses its waiter |
| P2p.OnProvidersFound | crates/model-store/src/p2p.rs:271-289 | all providers are remembered and the first of the batch not asked yet is asked |
| P2p.OnQueryFinished | crates/model-store/src/p2p.rs:290-304 | a fetch that knows nobody fails and its waiter is told, any other is left as it was |
| P2p.OnQueryError | crates/model-store/src/p2p.rs:305-309 | the pending fetch is settled with the query error, whoever is known |
| P2p.OnBytes | crates/model-store/src/p2p.rs:335-362 | the fetch is settled, with the bytes exactly when size and hash are right |
| P2p.OnNotFound | crates/model-store/src/p2p.rs:363-383 | a known provider not asked yet is asked, or the fetch is settled when all have been |
| P2p.OnOutboundFailure | crates/model-store/src/p2p.rs:387-395 | the pending fetch is settled with the failure, whoever else is known |
| P2p.SettleValid | crates/model-store/src/p2p.rs:335-383 | answering a waiter keeps every other fetch awake and answers nobody twice |
| P2p.AskValid | crates/model-store/src/p2p.rs:278-286 | asking a provider not asked before keeps the invariant: no provider is asked twice for one waiter |
| P2p.StepValid | crates/model-store/src/p2p.rs:204-411 | every step keeps the invariant and every answer given |
| P2p.RunIsSafe | crates/model-store/src/p2p.rs:204-411 | in every state of every run no fetch is stranded and no provider is asked twice for one waiter; answers stay, and each answers the fetch of its own waiter |
| P2p.RunServes | crates/model-store/src/p2p.rs:204-411 | bytes delivered have the hash and size their waiter asked for, and once the network is quiet every waiter is answered or let go for a later fetch of its chunk |
| P2p.RunExplains | crates/model-store/src/p2p.rs:271-383 | in every state of every run a waiting fetch knows exactly the providers reported to it, nobody else is asked for it, all of them have been asked when it gives up on them, and nobody was reported when it fails for want of providers |
| P2p.DriveSwarm | crates/model-store/src/p2p.rs:204-411 | the driver takes one such step for every event and so ends as runs do |
| Lifecycle.ControlState.UpsertAnnouncing | crates/app/src/control.rs:142-155 | the slice announces; its count and drain time stay |
| Lifecycle.ControlState.BeginDrain | crates/app/src/control.rs:157-167 | only an announced slice starts to drain |
| Lifecycle.ControlState.AcceptChain | crates/app/src/control.rs:193-205 | a chain is admitted exactly when the slice announces |
| Lifecycle.ControlState.ReleaseChain | crates/app/src/control.rs:208-218 | the count goes down by one, and the last one counted out of a draining slice stops it; an unknown slice is left alone |
| Lifecycle.ControlState.DrainIdle | crates/app/src/control.rs:222-232 | exactly the draining slices that serve nobody stop |
| Lifecycle.ControlState.ForceStopAllDraining | crates/app/src/control.rs:238-249 | every draining slice stops with its count reset |
| Lifecycle.ControlState.ExpiredDraining | crates/app/src/control.rs:172-181 | exactly the draining slices whose grace has run out |
| Lifecycle.Serve | crates/app/src/control.rs:142-280 | table, guards held and the success of every operation are those of the run, for any operations in any order |
| Lifecycle.RunCovered | crates/app/src/control.rs:193-280 | in every state of every run the guards held are those accepted and not released, and no count exceeds them |
| Lifecycle.CountsAreGuards | crates/app/src/control.rs:193-280 | the counts are the guards held as long as no force-stop has met a slice that still counts a chain and fewer than 2^32 guards are held |
| Lifecycle.AwayUntilJoin | crates/app/src/control.rs:157-205 | from its drain to its next announcement a slice is draining or stopped, admits nothing, and keeps the time of that drain, from which its grace is counted |
| Lifecycle.DrainFinishes | crates/app/src/control.rs:208-232 | after any run, releasing the guards held of a leaving slice and one idle pass leave it stopped with no guard held |
| Lifecycle.StoppedServesNobodyIff | crates/app/src/control.rs:208-249 | a stopped slice serves nobody throughout a run exactly when no force-stop of the run meets a draining slice that still counts a chain |
| Lifecycle.StoppedWhileServing | crates/app/src/control.rs:238-249 | a run in which a forced slice is announced again and the old chain's release stops it under the new one |
| Lifecycle.SaturatedStops | crates/app/src/control.rs:199-218 | with 2^32 guards held the count saturates and a slice stops under its last chain without any force |
| Frames.EncodeFrame | crates/wire/src/lib.rs:136-144 | a length-prefixed body, unless it is over 16 MiB |
| Frames.ArrayBounds | crates/wire/src/lib.rs:78-90 | a payload written as an array of numbers takes between one and two bytes for each of its own |
| Frames.BigEndian | crates/wire/src/lib.rs:141-152 | the length is written and read most significant byte first |
| Frames.FrontDecided | crates/wire/src/lib.rs:148-163 | bytes behind a decided front change nothing |
| Frames.FrameReader.DecodeFrame | crates/wire/src/lib.rs:148-163 | one frame off the front of the buffer, or the buffer as it was |
| Frames.FrameReader.ReadFrame | crates/app/src/forward_server.rs:333-346 | the outcome depends on the stream alone, not on the pieces it arrives in |
| Frames.ReadAll | crates/app/src/forward_server.rs:333-346 | reading to the end yields the messages of the stream for any fragmentation |
| Frames.DeframeFrames | crates/wire/src/lib.rs:136-163 | exactly the messages sent, then clean end of file, or an error after part of a frame |
| Frames.PartialFrame | crates/app/src/forward_server.rs:337-341 | every proper part of a frame is such a tail |
| Wrap.CursorVisualPos | crates/app/src/tui/wrap.rs:280-299 | row and column of the scan, each modulo 2^16 |
| Wrap.VisualRowStart | crates/app/src/tui/wrap.rs:306-325 | the start of the scan's row |
| Wrap.VisualRowEnd | crates/app/src/tui/wrap.rs:330-342 | the first position from there at which the row has to end |
| Wrap.InputVisualRows | crates/app/src/tui/wrap.rs:253-276 | the rows of the scan |
| Wrap.BoxRowsAre | crates/app/src/tui/wrap.rs:253-276 | the rows tile the text: each starts where the one before it broke, at a newline that is skipped or before a character that would not have fitted, and holds no more columns than the box unless it is one character |
| Wrap.AgreeIff | crates/app/src/tui/wrap.rs:253-342 | the row shown starts at Home, ends at End, is the listed row and has the cursor at its column, at every cursor position, exactly when no character is wider than the box, there are fewer than 65536 wraps and newlines and no column reaches 65536; in a box of no columns exactly when nothing has width |
| Wrap.ManyLinesDisagree | crates/app/src/tui/wrap.rs:280-342 | behind a letter and 65536 newlines the cursor is shown on row 0 and Home is the end of the text |
| Prose.WrapVisual | crates/app/src/tui/wrap.rs:150-219 | the text is the rows in order with nothing but blanks around them, no row starts with a blank, each has no room left for a blank or for the word that follows it, and every row fits unless a character is wider than the box |
| Samplers.ApplyRepeatPenalty | crates/runtime/src/sample.rs:97-107 | each logit is penalized once for every occurrence of its token among the last tokens of the context |
| Samplers.TimesIs | crates/runtime/src/sample.rs:105-106 | penalized k times, a logit that is not negative is divided by the k-th power of the penalty and a negative one multiplied with it |
| Samplers.PenalizedOnceIff | crates/runtime/src/sample.rs:97-107 | every token of the window is penalized once exactly when none with a nonzero logit occurs twice in it |
| Samplers.TwicePenalized | crates/runtime/src/sample.rs:99-106 | a token that occurs twice loses the penalty twice |
| Samplers.Cutoff | crates/runtime/src/sample.rs:147-155 | the shortest prefix of the falling order whose mass reaches the threshold, or all of it |
| Samplers.NucleusIsSmallest | crates/runtime/src/sample.rs:137-155 | no smaller set of tokens, however chosen, reaches the threshold |
| Samplers.OneNucleus | crates/runtime/src/sample.rs:147-155 | the number of tokens kept is determined |
| Samplers.SampleTopP | crates/runtime/src/sample.rs:137-171 | the token drawn is kept, and is the one on whose stretch of the kept mass the random number falls |
| Samplers.OneStretch | crates/runtime/src/sample.rs:162-169 | stretches do not overlap, and a token's is as long as its probability |

## Left out

- Turns.RunTurn: assumes the chain has just been connected. The driver resets its own cache at the start of a turn, the peers only when their sessions open; a second turn on one chain is not covered.
- Speculative.RunTurnSpec: assumes the same, and does not describe the draft handle it returns, whose cache the stop path leaves ahead of the committed tokens. A draft task left running after a chain error is not modelled.
- Chains.Connect: the version handshake and the message fields are left out.
- Chains.Chain.Hop: a lost or late message is an environment choice; timeouts, reconnects and the closing message are not modelled. Rows have one width, and the size of a message is known up to the values of its payload.
- Payloads.HopOverPayloads: all rows have one width, which the layers keep; the chain's own objects carry rows over any wire.
- Peers.Peer.SessionInit: one live session per slice, since sessions on a slice share one cached handle; the slice cache is left out, and a host that cannot stitch or load refuses.
- Backends.Backend.ForwardRange: the allocator's refusal is a bound on cells per layer; libllama, device probing and the head's scratch sequence are not modelled.
- Turns.Generate: the sampler is any state transformer outside the greedy case, of which the repeat penalty and the top-p draw are modelled by themselves (`Samplers`); softmax and random numbers are not, and neither are token callbacks and incremental text.
- Reader.Open: positions are unbounded. Where a length field near 2^64 wraps `pos + n` the program passes its check and aborts on the slice; here the field is too long. The product of element size and count does wrap, as in the release build. Memory mapping and I/O errors are left out.
- Chunker.ChunkGguf: a cut that does not fit the file in wrapping 64-bit arithmetic, at which the program aborts, is the error `OutOfFile`; display name, dtype names, output directory handling and the JSON of the manifest are left out.
- Stitching.StitchSubset: shapes are unsigned 64-bit words, the bits the program reinterprets as signed; sizes are unbounded, and a stitched file is read back below 2^64 bytes; temporary files, renames and the existing-file shortcut of the daemon are left out.
- Checking.VerifiesOwnOutput: the hash is any function without collisions among the chunks produced.
- Serving.FetchedTurnIsLocalTurn: the daemon and the manifest agree on the layer count, slices are not empty and stay below 2^64 bytes, and embedding and head are the driver's own. The assumptions of `Loading.StitchedServes` apply.
- Loading.StitchedServes: a backend is any function of a layer's weights that ignores padding behind a tensor. It does not depend on the layer's number, nor on tensors outside the block such as `rope_freqs.weight`, which go with the head and are absent from other slices; how libllama reads metadata is not modelled.
- HiddenStates.RoundTripError: numbers are exact reals; a stored scale and a half float may be rounded in any way, but rounding inside the arithmetic, infinities and NaN are not modelled.
- P2p.DriveSwarm: announce and dial commands, serving requests and the identify events touch none of the tables and are left out; entries of finished queries stay in their table as they do in the program.
- Lifecycle.ControlState.ExpiredDraining: the clock is a parameter; display snapshots and persistence of disabled ranges are left out.
- HiddenStates.SelectPosition: a copy too large to allocate is not an abort here.
- Samplers.SampleTopP: numbers are exact reals, so the fallbacks for rounding slop are never taken; the unstable sort is any falling order.
- Frames.ReadAll: the body codec is a pair of functions assumed to round-trip on the messages sent.
- Wrap.InputVisualRows: positions count characters where the program counts bytes at character boundaries; code fences and scroll helpers are left out.
- Catalog, configuration, first run, telemetry, failover ranking, key derivation and the rest of the terminal interface are plumbing around these parts.
