# RABIT-KV in Dafny

A Dafny 4.11 model of three parts of RABIT-KV, with proofs of what each part is for. `dafny verify dfyconfig.toml`
checks all of it.

**The canonical cache.** The old region of a KV cache is stored as 3-bit K codes in groups of 32 tokens and 2-bit V
codes in groups of 32 channels; the minimum and scale of every group are themselves stored as 8-bit codes in groups of
64 (META8). `canonical_state` defines the decoded state by quantizing everything from token 0. `CanonicalLayerState`
reaches it token by token and decodes each 32-token page only once. The main results:

- the token-by-token state equals the definition for every sequence of BF16 tokens, every chunking and every head
  count, exactly when the head dimension is a multiple of 64 (`RefinementIffAligned`); at each length, K and V have their
  own exact condition, and up to 36 tokens nothing can go wrong (`KRefinesIff`, `VRefinesIff`);
- every step of `generate` and `score_stepwise`, for every deterministic model, attends to the definition applied to
  exactly the tokens each layer has received, and none of the loops' length checks can fail (`RabitRunsAreCanonical`,
  `GenerateTokens`, `ScoreStepwise`);
- generated tokens are the argmax of the rows that forcing them produces (`GenerateIsGreedy`);
- with the quantizers replaced by identities the RABIT arm and the BF16 arm agree token for token
  (`ArmsAgreeWithoutQuantization`);
- every decoded element is within an explicit bound of the raw one (`K3Error`, `V2Error`), and `logical_bytes` counts
  exactly the structures built (`BytesAreStored`), grows linearly and never compresses by 512/97 or more.

**BF16 and the conformance criteria.** Floating-point numbers are bit patterns with integer magnitudes (FP32 encoding of
section 3.4, roundTiesToEven of section 4.3.1 of IEEE 754-2019). The bit trick rounds to nearest even; the ordinal
distance bounds magnitudes; the passing classes of `classify` are sound for all finite vectors. Its failing class proves
a failure exactly when the record also fails C1 and either its largest error is more than the smallest subnormal, or
nothing agreed exactly, or all references are 0; among vectors of zeros and normals, exactly when it fails C1
(`PassClassesAreSound`, `FailClassIsConclusiveIff`, `NormalFailClassIsConclusiveIff`). The gating criterion means what it
says.

**The fail-closed sweep.** The line parser, the verdict with its write-once reference state, the run loop and the worker
that prints the lines. Over every run, any two accepted cells ran the same configuration (`AcceptedCellsAgree`), a sweep
returns exactly when every cell was accepted or passed over (`RunningMeans`), and whatever a worker prints is read back
unchanged and judged accordingly (`WorkerReadsBack`, `WorkerVerdict`, `DyingWorkerStops`, `PlannedCellIsAccepted`).

## How it is modelled

- A tensor is a sequence of tokens of heads of channels over `real`; access outside it gives 0, which is the zero padding
  of the open K group and of the last V channel group.
- FP32 subtraction, division, multiplication and addition in the quantizers and the BF16 cast are arbitrary functions
  (`Arith`) wherever the result does not depend on them: page locality, refinement and everything about decode runs
  therefore hold for rounded FP32 arithmetic too. The failing sequences ask only for a few values that rounded FP32
  arithmetic with the BF16 cast meets (`Elementary`); exact arithmetic meets them with any cast that keeps 0 and -1 and,
  like every binary format (`NoBinary255th`), not 1/255. The reconstruction bounds use exact arithmetic, wherever the four
  casts that decode an element are within u.
- Layer states, caches and the loops work over any codec. RABIT is one (`Rabit`), the identity another (`Identity`).
- The language model is any function that projects K and V per layer and attends to what the cache shows. The
  negative log-likelihood of a token, the library's summation and the exponential are arbitrary functions.
- JSON text is read and written by an arbitrary pair of functions; the printer/parser results ask of it only that
  reading undoes writing for the objects that are printed.
- Clean checks, process records and captured lines of a sweep are arbitrary inputs.

The module documentation of `canonical_rabit_quality.py` (line 30) admits head dimensions that are multiples of 32 if
heads times dimension is a multiple of 64. The code needs a multiple of 64: `DocumentedConditionIsTooWeak` gives two
heads of dimension 32, for which the two forms differ from 37 tokens on. The model follows the code.

## Model

| member | source | states |
|---|---|---|
| Tensors.RoundHalfEven | benchmarks/experiments/canonical_rabit_quality.py:63 | the rounded value is a nearest integer, and even when two are equally near |
| Quantizer.PadTo | benchmarks/experiments/canonical_rabit_quality.py:55-57 | the padding is shorter than a group and completes it |
| Quantizer.MetaPadded | benchmarks/experiments/canonical_rabit_quality.py:53-58 | the flat metadata is extended to whole groups of 64 by repeating its last value |
| Quantizer.Meta8Roundtrip | benchmarks/experiments/canonical_rabit_quality.py:48-68 | one decoded value per input, in input order and without padding, each computed from its own group of 64 alone |
| PageLocality.AlignedWindow | benchmarks/experiments/canonical_rabit_quality.py:48-68 | a stretch of metadata on META8 boundaries, or up to the end of the data, decodes as if it stood alone |
| PageLocality.K3AtFlat | benchmarks/experiments/canonical_rabit_quality.py:72-91 | a decoded K element uses the metadata at its (head, token group, channel) position |
| PageLocality.K3IsRowLocal | benchmarks/experiments/canonical_rabit_quality.py:72-91 | for head dimensions that are multiples of 64 a decoded K element depends only on its own head and token group |
| PageLocality.K3Splits | benchmarks/experiments/canonical_rabit_quality.py:22-24 | quantizing a page-aligned prefix and the rest apart gives the K values of quantizing both as one region |
| PageLocality.VGroupsOfConcat | benchmarks/experiments/canonical_rabit_quality.py:94-108 | V groups in (token, head, channel group) order of joined regions are those of the regions joined |
| PageLocality.V2AtFlat | benchmarks/experiments/canonical_rabit_quality.py:94-110 | a decoded V element uses the metadata at its (token, head, channel group) position |
| PageLocality.V2Splits | benchmarks/experiments/canonical_rabit_quality.py:22-24 | the same splitting law for V whenever a page holds whole META8 groups |
| PageLocality.MetaIsStored | benchmarks/experiments/canonical_rabit_quality.py:61-68 | META8 values are read back from the stored codes in 0..255 and the BF16 minimum and scale of their group of 64, multiplied first and added second |
| PageLocality.K3IsStored | benchmarks/experiments/canonical_rabit_quality.py:86-91 | every K element is read back from its code in 0..7 and the decoded metadata of its group |
| PageLocality.V2IsStored | benchmarks/experiments/canonical_rabit_quality.py:107-110 | every V element is read back from its code in 0..3 and the decoded metadata of its group |
| LayerState.PagesAreOneRegion | benchmarks/experiments/canonical_rabit_quality.py:151-155 | for a page-local codec pages decoded one by one are the decoding of all of them as one region |
| LayerState.IncrementalIsCanonical | benchmarks/experiments/canonical_rabit_quality.py:113-169 | for every page-local codec and BF16 sequence, cached pages, open group and residual together equal canonical_state |
| LayerState.CanonicalAt | benchmarks/experiments/canonical_rabit_quality.py:113-128 | token by token, canonical_state of n tokens is the decoding of the first n - 4 as one region, and the BF16 cast of the newest 4 |
| LayerState.IncrementalAt | benchmarks/experiments/canonical_rabit_quality.py:146-169 | token by token and for any decoder: closed pages of 32 decoded on their own, the rest of the first n - 4 tokens as one region, the newest 4 as they are |
| LayerState.ClosedPagesAreFinal | benchmarks/experiments/canonical_rabit_quality.py:133-134 | closed pages stay what they were, whatever is appended later |
| LayerState.PagesExtend | benchmarks/experiments/canonical_rabit_quality.py:151-155 | closing more pages only appends to the closed part |
| LayerState.TokensAge | benchmarks/experiments/canonical_rabit_quality.py:146-155 | a token is closed exactly when its whole page has left the residual; it only ages; fewer than 36 tokens stay in the tail |
| LayerState.CanonicalLayerState.constructor | benchmarks/experiments/canonical_rabit_quality.py:136-139 | a new state is valid and has received nothing |
| LayerState.CanonicalLayerState.Length | benchmarks/experiments/canonical_rabit_quality.py:141-144 | the token count is the number of tokens received |
| LayerState.CanonicalLayerState.Append | benchmarks/experiments/canonical_rabit_quality.py:146-155 | any chunk is added as BF16 to the tokens received, and closed pages and tail again split exactly those |
| LayerState.CanonicalLayerState.Decoded | benchmarks/experiments/canonical_rabit_quality.py:157-169 | shows the incremental state of the tokens received; for a page-local codec and BF16 tokens that is canonical_state, all but the newest 4 tokens decoded as one region; fails exactly before the first append |
| LayerState.FieldsDependOnTokens | benchmarks/experiments/canonical_rabit_quality.py:146-155 | two states that received the same tokens in any chunks have equal fields |
| LayerState.RabitKeepsLength | benchmarks/experiments/canonical_rabit_quality.py:72-110 | K3 and V2 decode one token per token |
| LayerState.RabitIsPageLocal | benchmarks/experiments/canonical_rabit_quality.py:22-24 | K3 and V2 are page local for every head count and every head dimension that is a multiple of 64 |
| LayerState.RabitRefinement | benchmarks/experiments/canonical_rabit_quality.py:113-169 | the layer state equals canonical_state for K and V, for any arithmetic |
| LayerState.DecodedRabit | benchmarks/experiments/canonical_rabit_quality.py:157-169 | a RABIT state that has received n BF16 tokens in any chunks shows K3 and V2 of the first n - 4 and the newest 4 unchanged |
| Sharpness.KMetaGroupsStayInPages | benchmarks/experiments/canonical_rabit_quality.py:22-30 | with two or more token groups no K META8 group crosses pages if and only if the head dimension is a multiple of 64 |
| Sharpness.VMetaGroupsStayInPages | benchmarks/experiments/canonical_rabit_quality.py:22-30 | with more than 32 tokens no V META8 group crosses pages if and only if heads times the padded dimension is a multiple of 64 |
| Sharpness.WitnessKDiffers | benchmarks/experiments/canonical_rabit_quality.py:113-169 | for every head count, every head dimension that is no multiple of 64 and every length from 37 on, a BF16 sequence whose incremental and canonical K differ |
| Sharpness.WitnessVDiffers | benchmarks/experiments/canonical_rabit_quality.py:113-169 | the same for V whenever heads times the padded dimension is no multiple of 64 |
| Sharpness.ShortSequencesAgree | benchmarks/experiments/canonical_rabit_quality.py:113-169 | up to 36 tokens the two forms agree for any decoder whatever |
| Sharpness.KRefinesIff | benchmarks/experiments/canonical_rabit_quality.py:113-169 | incremental equals canonical K for all BF16 sequences of n tokens if and only if n is at most 36 or the head dimension is a multiple of 64 |
| Sharpness.VRefinesIff | benchmarks/experiments/canonical_rabit_quality.py:113-169 | incremental equals canonical V for all BF16 sequences of n tokens if and only if n is at most 36 or heads times the padded dimension is a multiple of 64 |
| Sharpness.RefinementIffAligned | benchmarks/experiments/canonical_rabit_quality.py:113-169 | incremental equals canonical for K and V at every length if and only if the head dimension is a multiple of 64 |
| Sharpness.DocumentedConditionIsTooWeak | benchmarks/experiments/canonical_rabit_quality.py:30 | two heads of dimension 32 meet the documented condition and violate the refinement at every length from 37 on |
| Sharpness.ExactIsElementary | benchmarks/experiments/canonical_rabit_quality.py:61-65 | exact arithmetic with any cast that keeps 0 and -1 but not 1/255 meets what the failing sequence asks for |
| Reconstruction.RangeCovered | benchmarks/experiments/canonical_rabit_quality.py:82-85 | with either scale branch the scale is positive and the range of a group is at most `levels` steps |
| Reconstruction.ClampIsNoOp | benchmarks/experiments/canonical_rabit_quality.py:86 | clamping never changes a code |
| Reconstruction.AffineError | benchmarks/experiments/canonical_rabit_quality.py:82-88 | a code with its own scale and minimum is within half a step of the value |
| Reconstruction.ScaleCases | benchmarks/experiments/canonical_rabit_quality.py:61-63 | the levels divide the range of a group exactly, or the range is below the threshold and every code is 0 |
| Reconstruction.TopCodes | benchmarks/experiments/canonical_rabit_quality.py:61-63 | the largest value gets the top code 255, 7 or 3 unless the range is below 2.55e-10, 7e-8 or 3e-8, where it gets 0 |
| Reconstruction.MetaError | benchmarks/experiments/canonical_rabit_quality.py:58-65 | if the casts of the group's scale and minimum are within u, a META8 value is within range * (1/510 + u) + u * abs(min) + 2.55e-10 of the value it stands for |
| Reconstruction.BitRoundingIsNear | benchmarks/experiments/canonical_rabit_quality.py:64 | a cast that rounds the bits of a zero or normal number is within 2^-8 of it |
| Reconstruction.K3Error | benchmarks/experiments/canonical_rabit_quality.py:72-91 | every decoded K element, open group included, is within range / 14 + 7e-8 plus 7 scale-metadata bounds plus one minimum bound, given the four casts it uses |
| Reconstruction.V2Error | benchmarks/experiments/canonical_rabit_quality.py:94-110 | every decoded V element is within range / 6 + 3e-8 plus 3 scale-metadata bounds plus one minimum bound, given the four casts it uses |
| Reconstruction.OpenGroupContainsZero | benchmarks/experiments/canonical_rabit_quality.py:77-83 | the padding makes the range of an open K group contain 0 |
| LogicalBytes.MetaBytesAreStored | benchmarks/experiments/canonical_rabit_quality.py:229-231 | the counted metadata bytes are the codes, minima and scales that META8 builds |
| LogicalBytes.BytesAreStored | benchmarks/experiments/canonical_rabit_quality.py:219-239 | payload bytes are 3 and 2 bits for every code K3 and V2 build, metadata bytes their metadata, residual bytes 2 per recent value of K and V; without old tokens only the residual counts |
| LogicalBytes.AllLayersAreStored | benchmarks/experiments/canonical_rabit_quality.py:237-239 | field by field, for any number of layers: payloads hold 3 and 2 bits per code and no byte more, metadata and residual are those of the layers, and the total is their sum |
| LogicalBytes.BytesBound | benchmarks/experiments/canonical_rabit_quality.py:219-239 | at least 97/128 byte per old value pair and 4 bytes per recent one, for every shape |
| LogicalBytes.CompressionBound | benchmarks/experiments/canonical_rabit_quality.py:219-239 | BF16 bytes over logical bytes is strictly below 512/97 for every nonempty state |
| LogicalBytes.GrowthPerPage | benchmarks/experiments/canonical_rabit_quality.py:219-239 | from 4 tokens on, 32 more tokens cost exactly layers * 97 * heads * dimension / 4 bytes |
| LogicalBytes.BytesMonotone | benchmarks/experiments/canonical_rabit_quality.py:219-239 | more tokens never take less |
| Cache.HfRoundTrip | benchmarks/experiments/canonical_rabit_quality.py:196-200 | changing to the model's layout and back gives the tensor again |
| Cache.Grow | benchmarks/experiments/canonical_rabit_quality.py:209-213 | after an append the new tensors are the BF16 cast of the incremental state of all tokens received |
| Cache.KvCache.SeqLength | benchmarks/experiments/canonical_longctx_core.py:56 | the reported length is the token count of layer 0 |
| Cache.KvCache.FromModel | benchmarks/experiments/canonical_longctx_core.py:33-36 | the BF16 arm starts from the prefill cache itself |
| Cache.KvCache.Empty | benchmarks/experiments/canonical_rabit_quality.py:184-186 | a new cache has no layers |
| Cache.KvCache.AddLayer | benchmarks/experiments/canonical_rabit_quality.py:192-200 | a layer of batch size 1 is added with its BF16 tokens, any other batch size is refused without effect |
| Cache.KvCache.CountTokens | benchmarks/experiments/canonical_rabit_quality.py:201 | the seen count becomes the length of layer 0; fails exactly without layers |
| Cache.KvCache.Update | benchmarks/experiments/canonical_rabit_quality.py:204-214 | only layer l receives the tokens, only layer 0 counts them, the result is the view of all tokens of the layer; fails exactly on another batch size or, for RABIT, on more or fewer tokens than one, and then stores nothing |
| Decoding.ArgMax | benchmarks/experiments/canonical_longctx_core.py:42 | the first index of a largest logit |
| DecodeLoops.LegacyRoundTrip | benchmarks/experiments/canonical_rabit_quality.py:188-197 | a BF16 prefill read back from the model's layout is the prefill |
| DecodeLoops.FromPrefill | benchmarks/experiments/canonical_rabit_quality.py:188-202 | every layer has received exactly its prefill tokens; fails exactly on no layers or a batch size other than 1 |
| DecodeLoops.Prefilled | benchmarks/experiments/canonical_ppl_core.py:110-112 | both arms start from the prefill history with the seen count of the input |
| DecodeLoops.ArmNames | benchmarks/experiments/canonical_longctx_core.py:35-38 | bf16 attends to the raw cache, rabit to the canonical one, and there is no other arm |
| DecodeLoops.Forward | benchmarks/experiments/canonical_rabit_quality.py:204-214 | one forward through the mutable cache is one step of the pure run, adds one token to every layer and keeps them uniform |
| DecodeLoops.ReadyStatesHold | benchmarks/experiments/canonical_longctx_core.py:56-60 | between forwards cache length and every layer state equal the seen count |
| DecodeLoops.GreedySteps | benchmarks/experiments/canonical_longctx_core.py:43-53 | the loop computes the greedy run from the current history |
| DecodeLoops.GenerateTokens | benchmarks/experiments/canonical_longctx_core.py:26-62 | fails exactly on a name other than bf16 and rabit, an empty prompt or a replaced cache, so no length check fires; otherwise returns the greedy run over the named arm with its counts |
| DecodeLoops.ScoreStepwise | benchmarks/experiments/canonical_ppl_core.py:103-125 | fails exactly on a name other than bf16 and rabit, an empty context or continuation or a replaced cache, so no length check fires; otherwise returns the losses of the teacher-forced run over the named arm |
| DecodeLoops.ForcedSteps | benchmarks/experiments/canonical_ppl_core.py:113-119 | the loop returns the rows of the teacher-forced run; it fails exactly when a forward replaces the cache, never on its length |
| Scoring.LossesAreCausal | benchmarks/experiments/canonical_ppl_core.py:103-125 | the loss of token i depends only on the context and the tokens up to i |
| Scoring.AggregateIsMean | benchmarks/experiments/canonical_ppl_core.py:158-160 | with exact loss sums the aggregate is the mean over all tokens of all windows, and it fails exactly without windows |
| Scoring.LossesAre | benchmarks/experiments/canonical_ppl_core.py:108-122 | the first token is scored under the prefill row, token i under the row that forcing the first i tokens produces |
| Scoring.RowPerplexity | benchmarks/experiments/canonical_ppl_core.py:85-86 | perplexity is the exponential of the loss sum per token, cut off at 50 |
| Scoring.EqualLosses | benchmarks/experiments/canonical_ppl_core.py:81-87 | tokens that all lose a have perplexity exp(min(a, 50)) |
| Scoring.AggregatePerplexity | benchmarks/experiments/canonical_ppl_core.py:158-160 | the aggregate perplexity is the exponential of the mean loss, cut off at 50 |
| Scoring.CutWindow | benchmarks/experiments/canonical_ppl_core.py:158-160 | cutting a window in two changes neither mean loss nor perplexity nor token count |
| DecodeLoops.PrefillStateParity | benchmarks/experiments/canonical_ppl_core.py:135-155 | lists exactly the layers whose cache differs from canonical_state, hence none for a page-local codec |
| DecodingProperties.PartwayStep | benchmarks/experiments/canonical_rabit_quality.py:204-214 | inside a forward the layers done have one token more than the others |
| DecodingProperties.StepMeans | benchmarks/experiments/canonical_longctx_core.py:50 | one forward embeds the token at its position, every layer attends to its history with the token's own K and V, and the logits come from the last hidden state |
| DecodingProperties.ForcedAppend | benchmarks/experiments/canonical_ppl_core.py:113-119 | forcing more tokens continues from the history reached and keeps the earlier rows |
| DecodingProperties.GenerateIsGreedy | benchmarks/experiments/canonical_longctx_core.py:40-62 | every generated token is the argmax of the row that forcing the last prompt token and the tokens before it produces; generation ends early exactly when that argmax is EOS |
| DecodingProperties.ScoresMean | benchmarks/experiments/canonical_ppl_core.py:111-119 | row 0 is the prefill row, row i the row of forcing the first i continuation tokens |
| DecodingProperties.DenseAt | benchmarks/experiments/canonical_longctx_core.py:36 | the BF16 arm attends to the received K and V in the model's layout |
| DecodingProperties.RabitAt | benchmarks/experiments/canonical_rabit_quality.py:209-214 | the RABIT arm attends to the BF16 cast of K3 and V2 of all tokens but the newest 4, and to those as received |
| DecodingProperties.StepLengths | benchmarks/experiments/canonical_longctx_core.py:50-52 | a forward adds one BF16 token to every layer |
| DecodingProperties.GreedyLengths | benchmarks/experiments/canonical_longctx_core.py:56-60 | after a greedy run every layer has as many new tokens as there were forwards |
| DecodingProperties.PageLocalLooksDefined | benchmarks/experiments/canonical_rabit_quality.py:204-214 | a page-local cache shows the BF16 cast of canonical_state for every BF16 history |
| DecodingProperties.GenerateAlike | benchmarks/experiments/canonical_longctx_core.py:26-62 | caches that show the same K and V generate the same tokens |
| DecodingProperties.ScoresAlike | benchmarks/experiments/canonical_ppl_core.py:103-125 | caches that show the same K and V give the same logit rows |
| DecodingProperties.RabitRunsAreCanonical | benchmarks/experiments/canonical_longctx_core.py:26-62 | generation and scoring with the RABIT cache equal those with canonical_state recomputed at every step |
| DecodingProperties.ArmsAgreeWithoutQuantization | benchmarks/experiments/canonical_longctx_core.py:26-62 | with identity decoders both arms generate and score the same, through all page closings |
| DecodingProperties.EosTruncates | benchmarks/experiments/canonical_longctx_core.py:40-62 | generation with an EOS id is the longest EOS-free prefix of generation without one; it stops on EOS iff EOS occurs within the budget; forwards are kept tokens plus one |
| DecodingProperties.BudgetExtends | benchmarks/experiments/canonical_longctx_core.py:44-53 | a larger budget only extends the result and changes nothing after a stop |
| DecodingProperties.ScoresAreCausal | benchmarks/experiments/canonical_ppl_core.py:103-125 | row i depends only on the context and the first i continuation tokens |
| Bf16.Mag32Strict | benchmarks/experiments/evaluate_exp14_fixed_bf16_criterion.py:40-44 | larger FP32 patterns have larger magnitudes, across binades |
| Bf16.BitsRoundMagnitude | benchmarks/experiments/evaluate_exp14_fixed_bf16_criterion.py:40-44 | the bit trick keeps the sign and rounds the magnitude, carry into the exponent included; the result is finite exactly below the overflow threshold |
| Bf16.RoundsToNearestEven | benchmarks/experiments/evaluate_exp14_fixed_bf16_criterion.py:40-44 | no finite BF16 number of either sign is nearer, and the result is even when another is as near |
| Bf16.RoundingIsMonotone | benchmarks/experiments/evaluate_exp14_fixed_bf16_criterion.py:12 | rounding is monotone on all finite FP32 values |
| Bf16.RoundingIsIdempotent | benchmarks/experiments/evaluate_exp14_fixed_bf16_criterion.py:40-44 | rounding a rounded pattern changes nothing |
| Bf16.RelativeErrorOfNormals | benchmarks/experiments/evaluate_exp14_fixed_bf16_criterion.py:40-44 | the error on normal numbers is at most 2^-8 of the value |
| Bf16.MaximumOfRounded | benchmarks/experiments/evaluate_exp14_fixed_bf16_criterion.py:12 | the largest rounded magnitude of a vector is the rounded largest magnitude |
| Ordinals.Mag16IsMag32 | benchmarks/experiments/exp14_shape_gate_numdiag.py:55-57 | a 16-bit pattern and its FP32 extension have the same value |
| Ordinals.Value16IsValue32 | benchmarks/experiments/exp14_shape_gate_numdiag.py:55-57 | sign and value of a 16-bit pattern are those of the FP32 pattern it abbreviates |
| Ordinals.StepsUp | benchmarks/experiments/analyze_exp14_shape_gate_numdiag.py:12-13 | d steps up are at least d spacings of the start, over any number of binades |
| Ordinals.MagnitudeBelow256Gaps | benchmarks/experiments/analyze_exp14_shape_gate_numdiag.py:13 | a magnitude is below 256 spacings, and at least 128 when normal |
| Ordinals.UlpIsSpacing | benchmarks/experiments/analyze_exp14_shape_gate_numdiag.py:41-44 | the ULP computed by logarithm is the distance to the next magnitude |
| Ordinals.OrdIsMonotone | benchmarks/experiments/exp14_shape_gate_numdiag.py:37-40 | ordinals order finite values strictly and identify exactly the two zeros |
| Ordinals.OrdCountsValues | benchmarks/experiments/exp14_shape_gate_numdiag.py:37-40 | two finite values are one ordinal apart exactly when no finite value lies between them |
| Ordinals.PairMagnitude | benchmarks/experiments/analyze_exp14_shape_gate_numdiag.py:11-15 | a same-sign pair d ULPs and at most E apart has smaller magnitude below 256 E / d; a pair around zero has both at most E |
| Ordinals.OutlierBoundHolds | benchmarks/experiments/analyze_exp14_shape_gate_numdiag.py:47-48 | the recorded bound exceeds the smaller magnitude of every outlier pair |
| Criterion.MaxErr | benchmarks/experiments/exp14_shape_gate_numdiag.py:55-60 | the recorded error is attained and not exceeded |
| Criterion.MaxUlps | benchmarks/experiments/exp14_shape_gate_numdiag.py:57-62 | the recorded ULP distance is attained and not exceeded |
| Criterion.CountExact | benchmarks/experiments/exp14_shape_gate_numdiag.py:61 | the count is full exactly when all elements have ULP distance 0 |
| Criterion.MaxRefIsRoundedMax | benchmarks/experiments/evaluate_exp14_fixed_bf16_criterion.py:48-50 | the rounded recorded maximum is the maximum of the rounded references |
| Criterion.DisagreementIsSmall | benchmarks/experiments/evaluate_exp14_fixed_bf16_criterion.py:15-16 | a disagreeing finite pair has a reference below 257 times the largest error, subnormals included |
| Criterion.OneUlpFlip | benchmarks/experiments/evaluate_exp14_fixed_bf16_criterion.py:17-20 | a 1-ULP flip is at least 2^-8 of its reference, more than that exactly outside the edge case, and at most 2^-7 of it unless subnormal |
| Criterion.PassClassesAreSound | benchmarks/experiments/evaluate_exp14_fixed_bf16_criterion.py:47-62 | for all finite outputs and references the C1 verdict is C1 of the elements, and both passing classes imply C2 |
| Criterion.ClassMeans | benchmarks/experiments/evaluate_exp14_fixed_bf16_criterion.py:47-62 | each class in terms of the elements: nothing disagrees; 25700 times the largest error is below the largest reference; all disagreements are one ULP and 12800 times the largest error is not below it |
| Criterion.FailClassIsSound | benchmarks/experiments/evaluate_exp14_fixed_bf16_criterion.py:17-20 | for all finite vectors: elements with the largest error are flips, above the floor unless subnormal, and C2 fails exactly when some flip above the floor is not the edge case |
| Criterion.FailClassMisleads | benchmarks/experiments/evaluate_exp14_fixed_bf16_criterion.py:19-20 | every power of two as the reference, with the number below it as the output, is recorded in the failing class and satisfies C2 |
| Criterion.ConclusiveMeans | benchmarks/experiments/evaluate_exp14_fixed_bf16_criterion.py:47-62 | every finite vector of a failing-class record that fails C1 violates C2 if the largest error is more than one unit, nothing agreed exactly or all references are 0 |
| Criterion.InconclusiveMeans | benchmarks/experiments/evaluate_exp14_fixed_bf16_criterion.py:47-62 | any other failing-class record is also the record of a vector that satisfies C2, one without subnormals if the record passes C1 |
| Criterion.FailedC1IsConclusive | benchmarks/experiments/evaluate_exp14_fixed_bf16_criterion.py:47-62 | every vector of zeros and normals with a failing-class record that fails C1 violates C2 |
| Criterion.FailClassIsConclusiveIff | benchmarks/experiments/evaluate_exp14_fixed_bf16_criterion.py:47-62 | for every captured record in the failing class, all finite vectors with that record violate C2 if and only if it fails C1 and its largest error is more than one unit, nothing agreed exactly or all references are 0 |
| Criterion.NormalFailClassIsConclusiveIff | benchmarks/experiments/evaluate_exp14_fixed_bf16_criterion.py:47-62 | for every captured record in the failing class, all vectors of zeros and normals with that record violate C2 if and only if it fails C1 |
| Conformance.MaxAbs | benchmarks/experiments/exp14_shape_gate.py:129 | the largest magnitude is attained and not exceeded |
| Conformance.MaxRel | benchmarks/experiments/exp14_shape_gate.py:131-132 | the largest relative error above the floor is attained and not exceeded, 0 if there is none |
| Conformance.DecideMeansConforms | benchmarks/experiments/exp14_shape_gate.py:107-133 | the decision from the maxima passes exactly when every element meets C1 and, above the floor, C2 |
| Conformance.DecideParts | benchmarks/experiments/exp14_shape_gate.py:107-118 | C1 and C2 each as an elementwise condition, the floor being a hundredth of the largest reference |
| Conformance.ConformanceMeaning | benchmarks/experiments/exp14_shape_gate.py:121-133 | a pass means equal nonempty shapes, all finite, and every element conforming |
| Conformance.RoundedOutputPasses | benchmarks/experiments/exp14_shape_gate.py:121-133 | the correctly rounded output of any vector of zeros and normals passes |
| Conformance.PassKeepsSigns | benchmarks/experiments/exp14_shape_gate.py:121-133 | above the floor a passing output has the sign of the reference |
| Conformance.ScaleInvariant | benchmarks/experiments/exp14_shape_gate.py:107-133 | scaling output and reference by the same positive factor does not change the verdict |
| Conformance.CheckAgrees | benchmarks/experiments/evaluate_exp14_unrounded_ref_criterion.py:28-36 | the posterior check on the recorded maxima gives the same C1 and C2 verdicts |
| Conformance.CheckWithoutRel | benchmarks/experiments/evaluate_exp14_unrounded_ref_criterion.py:33 | a missing relative error counts as 0 |
| SweepParser.ParseCell | benchmarks/experiments/exp5_attempt2_modal.py:268-291 | the loop computes the line-by-line reading of the output, and fails exactly when some line of the cell carries a broken payload |
| SweepParser.StripMeans | benchmarks/experiments/exp5_attempt2_modal.py:274 | surrounding white space, and nothing else, is removed |
| SweepParser.ParseFailsIff | benchmarks/experiments/exp5_attempt2_modal.py:268-308 | output is unparseable exactly when a sample, a warmup or a tag other than the GPU memory does not load as JSON |
| SweepParser.PayloadEffect | benchmarks/experiments/exp5_attempt2_modal.py:275-284 | what any line with a payload adds, and under which name |
| SweepParser.PlainEffect | benchmarks/experiments/exp5_attempt2_modal.py:272-290 | what any other line does: five markers, the phase they set, the JIT count while measuring, and nothing else |
| Json.PyEqIsEquality | benchmarks/experiments/exp5_attempt2_modal.py:310-348 | comparisons of payloads without booleans are equality |
| Json.PyEqOfAtoms | benchmarks/experiments/exp5_attempt2_modal.py:310-348 | null, strings, numbers and booleans equal only themselves, but for true and 1, false and 0 |
| Json.PyEqOfArrays | benchmarks/experiments/exp5_attempt2_modal.py:310-348 | arrays are equal exactly when their lengths and members are |
| Json.PyEqOfObjects | benchmarks/experiments/exp5_attempt2_modal.py:310-348 | objects are equal exactly when their keys and members are |
| Json.TruthyMeans | benchmarks/experiments/exp5_attempt2_modal.py:362-369 | which payloads count as false |
| SweepVerifier.FirstDeviation | benchmarks/experiments/exp5_attempt2_modal.py:349-358 | the loop reports the first request that deviates, and only it |
| SweepVerifier.SweepReference.constructor | benchmarks/experiments/exp5_attempt2_modal.py:411 | a sweep starts with nothing fixed |
| SweepVerifier.SweepReference.Check | benchmarks/experiments/exp5_attempt2_modal.py:308-374 | nothing is found exactly when the cell follows the plan in every record and fits the reference state; what is found is listed in the order of the checks |
| SweepVerifier.SweepReference.VerifyCell | benchmarks/experiments/exp5_attempt2_modal.py:298-404 | the verdict is the judgement of the parsed lines; the reference state changes only on acceptance, and then only where unset |
| SweepVerifier.NoDeviationMeans | benchmarks/experiments/exp5_attempt2_modal.py:349-358 | the request loop finds nothing exactly when every warmup and sample has the planned prompt, length and hash |
| SweepVerifier.NoReasonsMeans | benchmarks/experiments/exp5_attempt2_modal.py:308-376 | there is no reason to stop exactly when the cell follows the plan in every record and differs from nothing fixed earlier |
| SweepVerifier.ConfigReasonsAre | benchmarks/experiments/exp5_attempt2_modal.py:310-338 | each configuration reason is given exactly when its own check fails |
| SweepVerifier.RequestReasonsAre | benchmarks/experiments/exp5_attempt2_modal.py:339-374 | each request reason is given exactly when its own check fails |
| SweepVerifier.OnlyRecordReasons | benchmarks/experiments/exp5_attempt2_modal.py:349-358 | the request loop gives the reason of the first deviating request, prompt length before output length before hash |
| SweepVerifier.LegMeans | benchmarks/experiments/exp5_attempt2_modal.py:310-311 | the identity record has exactly the five fields of the cell |
| SweepVerifier.ProtocolMeans | benchmarks/experiments/exp5_attempt2_modal.py:328-331 | the fixed protocol setting by setting |
| SweepVerifier.WorkloadMeans | benchmarks/experiments/exp5_attempt2_modal.py:340-344 | the workload record field by field, with 32 output tokens |
| SweepVerifier.Stage3cMeans | benchmarks/experiments/exp5_attempt2_modal.py:362-369 | a rabit_kv2 cell ran the planned selection, any other cell none |
| SweepVerifier.CompleteMeans | benchmarks/experiments/exp5_attempt2_modal.py:313-318 | the five records a cell must print, by name |
| SweepVerifier.OkRequires | benchmarks/experiments/exp5_attempt2_modal.py:298-388 | an accepted cell has every required setting, so a cell with one of them changed is not accepted |
| SweepVerifier.OtherVerdicts | benchmarks/experiments/exp5_attempt2_modal.py:303-404 | when a cell stops as unparseable, uninitialized, deviating, incomplete or failed, in which order, and when the source raises |
| SweepVerifier.OkMeans | benchmarks/experiments/exp5_attempt2_modal.py:298-390 | accepted exactly when readable, following the plan, fitting the reference state, complete and exited with 0 |
| SweepVerifier.WorkloadFailureMeans | benchmarks/experiments/exp5_attempt2_modal.py:391-404 | a workload failure exactly when all methodology checks pass and a measured, reaped cell exited with 75 and one continuable report |
| SweepRun.RunCells | benchmarks/experiments/exp5_attempt2_modal.py:407-455 | the loop returns the failed cells of the sweep as a state machine, or raises exactly when that has stopped |
| SweepRun.StoppedStays | benchmarks/experiments/exp5_attempt2_modal.py:444-446 | a stopped sweep never resumes |
| SweepRun.AcceptedAgrees | benchmarks/experiments/exp5_attempt2_modal.py:324-388 | an accepted cell followed the plan, and after it the reference state agrees with it and keeps all it had |
| SweepRun.CellKeepsReference | benchmarks/experiments/exp5_attempt2_modal.py:298-301 | a cell that is not accepted leaves the reference state alone, an accepted one only adds to it |
| SweepRun.ReferenceIsWriteOnce | benchmarks/experiments/exp5_attempt2_modal.py:382-387 | over any stretch of a run what is fixed stays fixed, and nothing changes without an accepted cell |
| SweepRun.AcceptedCellsAgree | benchmarks/experiments/exp5_attempt2_modal.py:298-404 | any two accepted cells of any run have equal requested kwargs apart from the KV dtype and equal effective configuration, equal KV record and capacity if they share a dtype, and equal prompt hash if they share a context |
| SweepRun.AcceptedRecordsAgree | benchmarks/experiments/exp5_attempt2_modal.py:319-348 | the same record by record and key by key: payloads without booleans are identical |
| SweepRun.AcceptedMeans | benchmarks/experiments/exp5_attempt2_modal.py:378-388 | an accepted cell started clean, did not time out, left no process, exited with 0 and printed the five markers, all planned requests and no failure |
| SweepRun.PassedOverMeans | benchmarks/experiments/exp5_attempt2_modal.py:391-397 | a cell passed over was measured, exited with 75 after one continuable report, left no process at any time and a clean state |
| SweepRun.BrokenOutputStops | benchmarks/experiments/exp5_attempt2_modal.py:303-307 | a cell with a broken payload is neither accepted nor passed over and stops the sweep |
| SweepRun.DecimalReadsBack | benchmarks/experiments/exp5_attempt2_modal.py:432 | the index in a prefix reads back to its number |
| SweepRun.PrefixesAreDistinct | benchmarks/experiments/exp5_attempt2_modal.py:432 | no line carries the prefixes of two cells |
| SweepRun.PassedOverIsContinuable | benchmarks/experiments/exp5_attempt2_modal.py:391-397 | a cell the sweep continued past was measured, exited with 75, reported exactly one continuable failure, was fully reaped and left a clean state |
| SweepRun.RunningMeans | benchmarks/experiments/exp5_attempt2_modal.py:407-455 | the sweep is running exactly when every cell so far was accepted or passed over, and its list is the cells passed over in plan order |
| SweepRun.SweepReturns | benchmarks/experiments/exp5_attempt2_modal.py:407-455 | in a sweep that returns every cell was either accepted or continuable, never both, and the returned names belong to measured cells |
| SweepRun.AcceptedExitsZero | benchmarks/experiments/exp5_attempt2_modal.py:378-388 | an accepted cell exited with 0 and printed the complete marker sequence, all warmups and samples and no failure |
| SweepEmission.LineParses | benchmarks/experiments/exp5_attempt2_modal.py:271-290 | a printed line, prefixed and parsed, has exactly the effect it is meant to have; other output has none but for the JIT count |
| SweepEmission.StreamParses | benchmarks/experiments/exp5_attempt2_modal.py:268-291 | a whole printed stream parses, to the effects of its lines in order |
| SweepEmission.EmissionReadsBack | benchmarks/experiments/exp5_attempt2_modal.py:268-291 | whatever noise is interleaved, tags, warmups, samples, markers and failures read back are those printed |
| SweepJit.LinePhase | benchmarks/experiments/exp5_attempt2_modal.py:285-290 | how each line moves the measurement phase and the JIT count |
| SweepJit.JitCountMeans | benchmarks/experiments/exp5_attempt2_modal.py:268-291 | the count is positive exactly when some JIT line lies after a measurement start with no phase end in between |
| SweepJit.AcceptedHasNoJit | benchmarks/experiments/exp5_attempt2_modal.py:359-360 | no accepted cell of any run has such a line |
| SweepWorker.Serve | benchmarks/experiments/exp5_attempt2_engine_worker.py:285-299 | a phase prints the records before the first exception and reports it |
| SweepWorker.WorkerMain | benchmarks/experiments/exp5_attempt2_engine_worker.py:148-309 | the lines printed in order and the exit code, for complete runs, for failures in either phase and for exceptions in the header or after the measurement |
| SweepWorker.HeaderReadsBack | benchmarks/experiments/exp5_attempt2_engine_worker.py:148-262 | the tags read back from the header are its records, GPU memory excepted |
| SweepWorker.HeaderOrder | benchmarks/experiments/exp5_attempt2_engine_worker.py:148-247 | the nine header records in the order they are printed |
| SweepWorker.WorkerReadsBack | benchmarks/experiments/exp5_attempt2_modal.py:268-291 | whatever a worker prints, prefixed and interleaved with other output, parses to exactly its tags, warmups, samples, markers and failure report |
| SweepWorker.WorkerVerdict | benchmarks/experiments/exp5_attempt2_modal.py:378-404 | a worker whose records follow the plan and fit the reference state and whose measurement is free of JIT lines is accepted exactly if it completed; otherwise the sweep continues exactly for a continuable failure of a measured, reaped cell |
| SweepWorker.DyingWorkerStops | benchmarks/experiments/exp5_attempt2_modal.py:313-318 | a worker that dies outside its requests always stops the sweep, before the first request as an initialization failure |
| SweepWorker.PlannedFollowsPlan | benchmarks/experiments/exp5_attempt2_engine_worker.py:148-262 | a worker that prints the records of its planned cell, on an engine that obeys, follows the plan |
| SweepWorker.PlannedCellIsAccepted | benchmarks/experiments/exp5_attempt2_modal.py:298-388 | such a cell is accepted when it completes with a quiet measurement and fits the reference state, whatever noise surrounds its output |

## Left out

- K3Error: bounds exact arithmetic around the BF16 casts; FP32 rounding inside the quantizers adds to it.
- V2Error: as K3Error.
- KMetaGroupsStayInPages: says where the groups lie; that aligned groups coincide with the page's own grouping is AlignedWindow.
- GenerateTokens: a model either always returns the cache it was given or never does.
- ScoreStepwise: the loss, its summation and the exponential are parameters.
- Update: the BF16 arm is the library's DynamicCache, modelled as appending along the token axis, counting before it appends and reporting the length of layer 0; its caches have batch size 1.
- ArgMax: picks the first of several equal maxima; torch leaves the choice open.
- PassClassesAreSound: the floor 0.01 is the exact fraction, and errors are exact differences rather than FP32 differences. The C1 ratio itself is not returned.
- ConformanceMeaning: real arithmetic in place of FP64; the ratios and error texts of the result are not modelled.
- RunCells: the clean checks and the watchdog's process record are inputs; command lines, timeouts and the lines the sweep itself prints are not modelled.
- VerifyCell: a payload of the wrong JSON type, on which the source raises, is one verdict `Raised` checked before the comparisons; like a stop it ends the sweep. Requested kwargs printed as a list of pairs, which Python's dict() would convert, count as such. The reason texts are names.
- WorkerVerdict: the failure report is an object with any `kind`; how `failure_kind` derives it from an exception is not modelled.
- DyingWorkerStops: at which header line an exception strikes is an input.
- NaN and infinity in the quantizers; where a metadata cast overflows or underflows, the error bounds do not apply.
- `pad` and `pad_seq` of K3 and V2 results, and `keep_fp32`, which nothing reads.
- `score_bf16_batched`, `build_token_pool` and `split_windows`: list slicing around the model.
- `checkpoint_failures`, the ULP histogram, and the replay loops that drive a GPU runtime.
- The physical vLLM pages, Triton kernels, the Modal apps, report builders, tokenizers and answer scorers.
