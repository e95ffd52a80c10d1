# Neural-Network core in Dafny

A model of the `NeuralNetwork` class and its `ActivationFunctions` helper
(`NeuralNetworkLibrary/NeuralNetwork/NeuralNetwork.cs`): a fully connected
feed-forward network that the Unity demos evaluate once per tick and evolve by
cloning the best network and adding random offsets to its weights and biases.

What the model covers:

- **Topology.** `Init` turns the input width, the hidden widths and the output
  width into the layer array `[input] ++ hidden ++ [output]`.
- **Tensors.** Weights are `w[layer][from][to]` and biases are `b[layer][neuron]`,
  as nested `seq<real>`. `Network.Valid` is the shape invariant that every
  constructor establishes and every operation keeps.
- **Construction.** Construction either samples every cell or copies a supplied
  tensor by coordinate onto zero-filled storage. The error paths are a null
  hidden-width array (`NullArg`) and a negative width (`Overflow`, from C#'s array
  allocation).
- **Forward pass.** `GetOutput` is a layer recurrence with the source's error
  order: null inputs, then an uninitialized network, then too few inputs. An
  imperative version (`Forward.GetOutputLoop`) keeps the source's accumulation
  loops and is proved equal to the recurrence.
- **Mutation.** The two operators add one draw of the network's delegate to
  every cell.
- **Support code.** The introspection getters, the tensor and delegate
  setters, and the clone constructor.
- **Source defects.** Module `Legacy` has the bounds guards exactly as the source
  writes them. Module `Aliasing` has the clone constructor's storage sharing.
  Both are described under Findings.

Modelling choices:

- Numbers are `real`. IEEE rounding is not modelled.
- The random-value delegate is a function `Sampler = (nat, real, real) -> real`.
  `sampler(k, min, max)` is the value of its `k`-th invocation. `Init` numbers its
  draws from 0: weights in `x, y, z` order, then biases. The mutation operators
  take `start`, the number of draws the delegate has already served.
- Activations are `real -> real`. A null activation selects `Linear`.
- Exceptions are `Errors.Error`: `NotInitialized`, `NullArg`,
  `InvalidInput(given, required)` (the counts `InvalidInputException` carries,
  lines 578-592), `IndexOutOfRange` and `Overflow`. A nullable argument is an
  `Errors.Option`.
- Operations on a network require `Network.Valid`. This is the C# class invariant: `Network.Init` establishes it, and every operation that returns a network keeps it.
- `Network.Uninitialized` is an object whose constructor never ran `Init`. The
  source guards against this state defensively.
- `GetOutput` is a function of the network value and the inputs and returns no
  network. It therefore cannot change weights or biases, and two calls with the
  same inputs give the same result.

Behaviour of the code worth noting:

- A cell the copy guard skips keeps the array default 0 and is not sampled
  (lines 324-345, 370-386). With the guards as written, only a missing weight
  matrix or weight row is skipped. Every other gap in a supplied tensor raises
  IndexOutOfRangeException (see Findings).
- The `Weights`/`Biases` getters return null on an uninitialized network. They do
  not throw (lines 37, 71).
- A width of 0 is accepted. Only a negative width fails, and it fails at
  allocation.
- The clone constructor shares storage instead of copying it (see Findings).

## Model

| member | source | states |
|---|---|---|
| Tensors.BuildLayers | NeuralNetworkLibrary/NeuralNetwork/NeuralNetwork.cs:304-316 | the layer array is the input width, then the hidden widths in order, then the output width; its length is the hidden count plus 2 |
| Tensors.WeightDrawsDistinct | NeuralNetworkLibrary/NeuralNetwork/NeuralNetwork.cs:348-361 | the fill order gives every weight its own draw number, below the total weight count, and two cells share a number only if they are the same cell |
| Tensors.BiasDrawsDistinct | NeuralNetworkLibrary/NeuralNetwork/NeuralNetwork.cs:389-397 | every bias gets its own draw number, below the total bias count |
| Activations.Step | NeuralNetworkLibrary/NeuralNetwork/NeuralNetwork.cs:534 | the result is 0 or 1, and it is 1 exactly when the input is positive |
| Activations.Linear | NeuralNetworkLibrary/NeuralNetwork/NeuralNetwork.cs:540 | returns its input; it is also the default activation (line 415) |
| Activations.ReLu | NeuralNetworkLibrary/NeuralNetwork/NeuralNetwork.cs:558 | the result is at least 0 and at least the input, and equals one of them, so it is their maximum |
| Activations.ReLuIsInputTimesStep | NeuralNetworkLibrary/NeuralNetwork/NeuralNetwork.cs:534-558 | ReLu(x) = x * Step(x) |
| Activations.StepAfterReLu | NeuralNetworkLibrary/NeuralNetwork/NeuralNetwork.cs:534-558 | Step ignores a preceding ReLu, and ReLu is idempotent |
| Network.ZeroWeights | NeuralNetworkLibrary/NeuralNetwork/NeuralNetwork.cs:321-333 | freshly allocated weights have the shape the layers dictate and hold 0 everywhere |
| Network.ZeroBiases | NeuralNetworkLibrary/NeuralNetwork/NeuralNetwork.cs:367-375 | freshly allocated biases have the shape the layers dictate and hold 0 everywhere |
| Network.OverlayWeights | NeuralNetworkLibrary/NeuralNetwork/NeuralNetwork.cs:326-344 | copy by coordinate with the intended guard: the result has the target's shape, takes the supplied cell where one exists and keeps the target cell elsewhere |
| Network.OverlayBiases | NeuralNetworkLibrary/NeuralNetwork/NeuralNetwork.cs:372-385 | the bias counterpart: target shape, supplied cell where present, target cell elsewhere |
| Network.Init | NeuralNetworkLibrary/NeuralNetwork/NeuralNetwork.cs:284-399 | fails with NullArg on a null hidden array; otherwise succeeds exactly when no width is negative (else Overflow); a success has the topology as layers, tensors of exactly that shape, the given delegate, and Linear when no activation was given |
| Network.NewNetwork | NeuralNetworkLibrary/NeuralNetwork/NeuralNetwork.cs:206-222 | the basic constructors fail and succeed exactly as `Init` does: NullArg on a null hidden array, Overflow exactly when a width is negative; a success has the topology as layers, the given delegate and Linear by default, each weight is the delegate's draw with its fill number and bounds -10..10, and each bias is a draw numbered after all weights with bounds -1..1 |
| Network.DefaultRandomValue | NeuralNetworkLibrary/NeuralNetwork/NeuralNetwork.cs:402-412 | the default delegate's scaling of a unit draw: 0 for the draw 0 and 0 on the bounds [0, 0] |
| Network.DefaultWithinStraddlingBounds | NeuralNetworkLibrary/NeuralNetwork/NeuralNetwork.cs:402-412 | for a unit draw in [-1, 1) and bounds with min <= 0 <= max, the default delegate's value lies within the bounds |
| Network.DefaultDrawsZeroOnZeroBounds | NeuralNetworkLibrary/NeuralNetwork/NeuralNetwork.cs:402-412 | whatever its generator yields, the default delegate draws 0 on the bounds [0, 0], so it meets what DegenerateMutationKeepsOutputs asks |
| Network.DefaultLeavesBounds | NeuralNetworkLibrary/NeuralNetwork/NeuralNetwork.cs:402-412 | with min = 0.5, max = 1 the unit draw -0.5 gives 0.25, below min, so the default delegate does not keep every draw within its bounds |
| Network.IntendedRandomValue | NeuralNetworkLibrary/NeuralNetwork/NeuralNetwork.cs:176-179 | the default delegate as its documentation promises: the unit draw -1 gives min, and equal bounds give that bound |
| Network.IntendedWithinBounds | NeuralNetworkLibrary/NeuralNetwork/NeuralNetwork.cs:176-179 | for a unit draw in [-1, 1) and any ordered bounds, the intended delegate's value lies within the bounds |
| Network.IntendedRespectsBounds | NeuralNetworkLibrary/NeuralNetwork/NeuralNetwork.cs:176-179 | a delegate built on the intended scaling keeps every draw within every pair of ordered bounds, whatever its generator yields |
| Network.SampledWeightCells | NeuralNetworkLibrary/NeuralNetwork/NeuralNetwork.cs:348-361 | a sampled weight tensor holds at each cell the delegate's draw with that cell's fill number |
| Network.SampledBiasCells | NeuralNetworkLibrary/NeuralNetwork/NeuralNetwork.cs:389-397 | a sampled bias tensor holds at each cell the delegate's draw with that cell's fill number |
| Network.InitWeightCells | NeuralNetworkLibrary/NeuralNetwork/NeuralNetwork.cs:321-362 | without supplied weights each weight is the delegate's draw with that cell's fill number and the weight bounds; with supplied weights each cell is the supplied cell, or 0 where none exists |
| Network.InitBiasCells | NeuralNetworkLibrary/NeuralNetwork/NeuralNetwork.cs:367-398 | without supplied biases each bias is a draw numbered after all sampled weights, with the bias bounds; with supplied biases each cell is the supplied cell, or 0 where none exists |
| Network.InputCount | NeuralNetworkLibrary/NeuralNetwork/NeuralNetwork.cs:100-104 | -1 exactly on an uninitialized network, else the first layer width |
| Network.HiddenLayerCount | NeuralNetworkLibrary/NeuralNetwork/NeuralNetwork.cs:109-113 | -1 exactly on an uninitialized network, else the layer count minus 2 |
| Network.HiddenNeurons | NeuralNetworkLibrary/NeuralNetwork/NeuralNetwork.cs:118-138 | null exactly on an uninitialized network, else as many widths as hidden layers, element i being layer i+1 |
| Network.OutputCount | NeuralNetworkLibrary/NeuralNetwork/NeuralNetwork.cs:143-147 | -1 exactly on an uninitialized network, else the last layer width |
| Network.InitIntrospection | NeuralNetworkLibrary/NeuralNetwork/NeuralNetwork.cs:100-147 | on a constructed network the getters give back the input width, the number of hidden layers, the hidden widths and the output width passed to the constructor |
| Network.Weights | NeuralNetworkLibrary/NeuralNetwork/NeuralNetwork.cs:37 | null exactly when the network is uninitialized |
| Network.Biases | NeuralNetworkLibrary/NeuralNetwork/NeuralNetwork.cs:71 | null exactly when the network is uninitialized |
| Network.SetWeights | NeuralNetworkLibrary/NeuralNetwork/NeuralNetwork.cs:38-63 | NotInitialized exactly on an uninitialized network, then NullArg exactly on a null value; a success changes only the weights, keeps their shape and keeps the network valid, and each weight becomes the supplied cell at the same coordinate where one exists and keeps its old value elsewhere |
| Network.SetBiases | NeuralNetworkLibrary/NeuralNetwork/NeuralNetwork.cs:72-94 | NotInitialized exactly on an uninitialized network, then NullArg exactly on a null value; a success changes only the biases, keeps their shape and keeps the network valid, and each bias becomes the supplied cell at the same coordinate where one exists and keeps its old value elsewhere |
| Network.SetThenGetWeights | NeuralNetworkLibrary/NeuralNetwork/NeuralNetwork.cs:35-63 | setting a full-shape weight tensor and reading it back returns that tensor, and the network stays valid |
| Network.SetThenGetBiases | NeuralNetworkLibrary/NeuralNetwork/NeuralNetwork.cs:69-94 | setting a full-shape bias tensor and reading it back returns that tensor, and the network stays valid |
| Network.GetThenSetIsIdentity | NeuralNetworkLibrary/NeuralNetwork/NeuralNetwork.cs:35-95 | writing back what the getters return leaves the network unchanged |
| Network.SetSampler | NeuralNetworkLibrary/NeuralNetwork/NeuralNetwork.cs:152-161 | fails with NullArg exactly on a null delegate; otherwise replaces only the delegate and keeps validity |
| Network.SetActivation | NeuralNetworkLibrary/NeuralNetwork/NeuralNetwork.cs:166-172 | fails with NullArg exactly on a null delegate; otherwise replaces only the activation and keeps validity |
| Network.Clone | NeuralNetworkLibrary/NeuralNetwork/NeuralNetwork.cs:264-278 | NullArg exactly on a null source, NotInitialized exactly on an uninitialized one; otherwise the clone has the source's layers, tensors and delegates |
| Forward.Layer | NeuralNetworkLibrary/NeuralNetwork/NeuralNetwork.cs:453-472 | one boundary: as many neurons as biases, neuron z being act(sum over y of prev[y] * w[y][z], plus b[z]) |
| Forward.LayerValues | NeuralNetworkLibrary/NeuralNetwork/NeuralNetwork.cs:438-475 | layer x of the pass has exactly layers[x] values |
| Forward.GetOutput | NeuralNetworkLibrary/NeuralNetwork/NeuralNetwork.cs:423-476 | NullArg exactly on null inputs; NotInitialized exactly on non-null inputs to an uninitialized network; InvalidInput(given = input count, required = layers[0]) exactly when too few inputs reach an initialized network; a success has the output width |
| Forward.GetOutputSucceeds | NeuralNetworkLibrary/NeuralNetwork/NeuralNetwork.cs:426-435 | evaluation succeeds exactly when the network is initialized and at least layers[0] inputs are given |
| Forward.LayerValuesUseInputPrefix | NeuralNetworkLibrary/NeuralNetwork/NeuralNetwork.cs:447-451 | every layer value depends only on the first layers[0] inputs |
| Forward.ExtraInputsIgnored | NeuralNetworkLibrary/NeuralNetwork/NeuralNetwork.cs:447-451 | evaluating with trailing extra inputs gives the same result as evaluating with exactly layers[0] inputs |
| Forward.ZeroNetworkOutputsZero | NeuralNetworkLibrary/NeuralNetwork/NeuralNetwork.cs:453-475 | with all weights and biases 0 and an activation that maps 0 to 0 (such as Linear), every output is 0, whatever the inputs |
| Forward.OutputWithinActivationRange | NeuralNetworkLibrary/NeuralNetwork/NeuralNetwork.cs:465-471 | every output lies in any interval that contains all values of the activation |
| Forward.StepNetworkOutputsBinary | NeuralNetworkLibrary/NeuralNetwork/NeuralNetwork.cs:470 | a network with the Step activation outputs only 0s and 1s |
| Forward.OnesExample | NeuralNetworkLibrary/NeuralNetwork/NeuralNetwork.cs:439-475 | topology [3, 2, 2, 1], all weights and biases 1, Linear activation, inputs [1, 1, 1]: the output is [19] |
| Forward.ComputeLayer | NeuralNetworkLibrary/NeuralNetwork/NeuralNetwork.cs:453-472 | the source's accumulate-then-activate loops compute exactly the layer recurrence |
| Forward.GetOutputLoop | NeuralNetworkLibrary/NeuralNetwork/NeuralNetwork.cs:423-476 | the source's loop structure, including its checks in order, returns exactly what the recurrence defines |
| Mutation.AddRandomNumbersToWeights | NeuralNetworkLibrary/NeuralNetwork/NeuralNetwork.cs:483-500 | fails exactly on an uninitialized network (NotInitialized); otherwise each weight becomes its old value plus the delegate's draw for that cell; shape, layers, biases and delegates are unchanged |
| Mutation.AddRandomNumbersToBiases | NeuralNetworkLibrary/NeuralNetwork/NeuralNetwork.cs:507-521 | fails exactly on an uninitialized network (NotInitialized); otherwise each bias becomes its old value plus the delegate's draw for that cell; everything else is unchanged |
| Mutation.WeightDrift | NeuralNetworkLibrary/NeuralNetwork/NeuralNetwork.cs:496 | if the delegate keeps its draws within the bounds, each weight moves by an amount between the two bounds |
| Mutation.BiasDrift | NeuralNetworkLibrary/NeuralNetwork/NeuralNetwork.cs:518 | if the delegate keeps its draws within the bounds, each bias moves by an amount between the two bounds |
| Mutation.ZeroDrawsKeepWeights | NeuralNetworkLibrary/NeuralNetwork/NeuralNetwork.cs:489-499 | if the delegate always draws 0, the weight mutation returns the network unchanged |
| Mutation.ZeroDrawsKeepBiases | NeuralNetworkLibrary/NeuralNetwork/NeuralNetwork.cs:513-520 | if the delegate always draws 0, the bias mutation returns the network unchanged |
| Mutation.DegenerateMutationKeepsOutputs | NeuralNetworkLibrary/NeuralNetwork/NeuralNetwork.cs:483-521 | with bounds [0, 0] and a delegate that draws only 0 on them, both mutations leave the network unchanged, so every evaluation answers as before |
| Mutation.MutationOrdersAgreeOnShape | NeuralNetworkLibrary/NeuralNetwork/NeuralNetwork.cs:483-521 | with the second operator's draws following the first's on the one shared delegate, both orders succeed and agree on layers, tensor shapes and delegates |
| Mutation.MutationOrderMatters | NeuralNetworkLibrary/NeuralNetwork/NeuralNetwork.cs:483-521 | on a 1-1 network of zeros whose delegate returns its draw number, weights-then-biases gives weight 0 and bias 1 while biases-then-weights gives weight 1 and bias 0, so the order matters |
| Legacy.WeightCellAsWritten | NeuralNetworkLibrary/NeuralNetwork/NeuralNetwork.cs:336-341 | the as-written guard faults exactly at the coordinate one past a supplied row's end, and takes the supplied value exactly where the supplied tensor has a cell |
| Legacy.InitBiasCellAsWritten | NeuralNetworkLibrary/NeuralNetwork/NeuralNetwork.cs:378-383 | the as-written construction guard faults exactly when the supplied tensor lacks row x or the coordinate is one past the row's end |
| Legacy.SetBiasCellAsWritten | NeuralNetworkLibrary/NeuralNetwork/NeuralNetwork.cs:87-91 | the as-written setter guard faults exactly one past the end of an existing supplied row |
| Legacy.FillWeightsAsWritten | NeuralNetworkLibrary/NeuralNetwork/NeuralNetwork.cs:326-344 | the as-written weight copy faults with IndexOutOfRange exactly when some target cell's guard faults, and otherwise keeps the target's shape |
| Legacy.WeightFaultIffShortRow | NeuralNetworkLibrary/NeuralNetwork/NeuralNetwork.cs:326-344 | the as-written weight copy faults exactly when some supplied row that the guard admits is shorter than its target row |
| Legacy.FillWeightsAsWrittenAgrees | NeuralNetworkLibrary/NeuralNetwork/NeuralNetwork.cs:326-344 | where the as-written weight copy does not fault, it equals the intended copy |
| Legacy.FillBiasesAsWritten | NeuralNetworkLibrary/NeuralNetwork/NeuralNetwork.cs:372-385 | the as-written bias copy of construction faults with IndexOutOfRange exactly when some target cell's guard faults, and otherwise keeps the target's shape |
| Legacy.InitBiasFaultIffShortRow | NeuralNetworkLibrary/NeuralNetwork/NeuralNetwork.cs:372-385 | the as-written bias copy of construction faults exactly when a non-empty target row has no supplied row or a shorter one |
| Legacy.FillBiasesAsWrittenAgrees | NeuralNetworkLibrary/NeuralNetwork/NeuralNetwork.cs:372-385 | where the as-written bias copy does not fault, it equals the intended copy |
| Legacy.InitAsWritten | NeuralNetworkLibrary/NeuralNetwork/NeuralNetwork.cs:284-399 | construction with the guards as written: NullArg on a null hidden array, Overflow on a negative width, otherwise IndexOutOfRange exactly when the supplied weight copy or the supplied bias copy faults at some cell, else a valid network with the topology, the given delegate and Linear by default |
| Legacy.InitAsWrittenAgrees | NeuralNetworkLibrary/NeuralNetwork/NeuralNetwork.cs:284-399 | the as-written construction differs from the intended one only by raising IndexOutOfRange; any network it builds and any other exception is the same |
| Legacy.SetWeightsAsWritten | NeuralNetworkLibrary/NeuralNetwork/NeuralNetwork.cs:38-63 | the Weights setter as written: NotInitialized, then NullArg, then IndexOutOfRange exactly when the guard faults at some cell; a success changes only the weights and keeps their shape |
| Legacy.SetWeightsAsWrittenAgrees | NeuralNetworkLibrary/NeuralNetwork/NeuralNetwork.cs:38-63 | the as-written Weights setter matches the intended one except where it raises IndexOutOfRange |
| Legacy.SetBiasesAsWritten | NeuralNetworkLibrary/NeuralNetwork/NeuralNetwork.cs:72-94 | the Biases setter as written: NotInitialized, then NullArg, then IndexOutOfRange exactly when the guard faults at some cell; a success changes only the biases and keeps their shape |
| Legacy.SetBiasesAsWrittenAgrees | NeuralNetworkLibrary/NeuralNetwork/NeuralNetwork.cs:72-94 | the as-written Biases setter matches the intended one except where it raises IndexOutOfRange |
| Legacy.ShortWeightRowFaults | NeuralNetworkLibrary/NeuralNetwork/NeuralNetwork.cs:337 | the 1-1 network with supplied weights [[[]]]: the as-written construction raises IndexOutOfRange, the intended one builds weight 0 |
| Legacy.MissingBiasRowFaults | NeuralNetworkLibrary/NeuralNetwork/NeuralNetwork.cs:379 | the 1-1 network with supplied biases []: the as-written construction raises IndexOutOfRange, the intended one builds bias 0 |
| Legacy.ShortBiasRowSetterFaults | NeuralNetworkLibrary/NeuralNetwork/NeuralNetwork.cs:88 | on a 1-1 network, setting biases [[]] raises IndexOutOfRange as written; the intended setter keeps the old bias |
| Aliasing.View | NeuralNetworkLibrary/NeuralNetwork/NeuralNetwork.cs:15-30 | an instance denotes an uninitialized network exactly when it was never initialized |
| Aliasing.Allocate | NeuralNetworkLibrary/NeuralNetwork/NeuralNetwork.cs:321-367 | new storage holds exactly the constructed network, and existing storage is untouched |
| Aliasing.CloneAsWritten | NeuralNetworkLibrary/NeuralNetwork/NeuralNetwork.cs:264-278 | NullArg or NotInitialized as the source dictates; otherwise the clone refers to the source's own storage reference and so denotes the same network |
| Aliasing.CloneDeep | NeuralNetworkLibrary/NeuralNetwork/NeuralNetwork.cs:264-278 | the intended clone has the same error cases and denotes the same network, but through fresh storage; the source's storage is left as it was |
| Aliasing.MutateWeights | NeuralNetworkLibrary/NeuralNetwork/NeuralNetwork.cs:483-500 | the weight mutation through an instance rewrites only that instance's storage, and the instance then denotes the mutated network |
| Aliasing.MutateBiases | NeuralNetworkLibrary/NeuralNetwork/NeuralNetwork.cs:507-521 | the bias mutation through an instance rewrites only that instance's storage |
| Aliasing.SharedCloneMutationReachesSource | NeuralNetworkLibrary/NeuralNetwork/NeuralNetwork.cs:271-275 | as written, after a clone's weights are perturbed, the source denotes the same perturbed network as the clone |
| Aliasing.SharedCloneCounterexample | NeuralNetworkLibrary/NeuralNetwork/NeuralNetwork.cs:271-273 | a 1-1 network with weight 0, cloned as written and perturbed by a delegate that draws 1: the source's weight becomes 1 |
| Aliasing.DeepCloneIsolatesSource | NeuralNetworkLibrary/NeuralNetwork/NeuralNetwork.cs:271-275 | with deep copying, perturbing the clone leaves the source exactly as it was, and the clone carries the perturbation |

## Left out

- `ActivationFunctions.Sigmoid` and `ActivationFunctions.Tanh` (lines 546, 552): they need `Math.Exp` and float behaviour. A network may still use any `real -> real` activation.
- The `System.Random` generator behind `DefaultRandomValue` (lines 402-412). Only the default delegate's scaling of a unit draw is modelled, as `Network.DefaultRandomValue`. The sampler in effect is always a parameter, so the constructors that would pick the default take one. The default stays within `[min, max]` only when `min <= 0 <= max`. `Network.RespectsBounds` is therefore an assumption about the delegate; Unity's `Random.Range` meets it (see Findings).
- IEEE float rounding, overflow to infinity and NaN: numbers are `real`.
- Exception message strings: only the error kind is kept, plus the two counts of `InvalidInputException`.
- Null inner arrays of a supplied jagged tensor (a null `weights[x]`): rows are sequences and cannot be null.
- The getters return the live arrays, so a caller can change a network's tensors through them. The model has value semantics. Storage sharing is modelled only for the clone constructor, in module Aliasing.
- Network.SetSampler: on an uninitialized network the C# object stores the delegate; the model's uninitialized network has no fields and stays as it is.
- Network.SetActivation: same as SetSampler on an uninitialized network.
- Legacy.InitAsWritten: when a negative width and a short supplied row occur together, the model reports Overflow. The source raises whichever exception its loop order reaches first.
- Legacy.SetWeightsAsWritten: when the as-written setter faults, the cells it wrote before the faulting one stay written in the source. The model reports only the exception.
- Legacy.SetBiasesAsWritten: same partial write on a fault as SetWeightsAsWritten.
- Forward.GetOutputLoop keeps one buffer for the previous layer and one for the layer being computed. The source allocates one buffer per layer up front; the values are the same.
- The state a delegate shares between a network and its clones (the draw counter): mutation takes the draw position `start` as a parameter, and a caller that runs two mutations in a row passes the second the position where the first stopped.
- The Unity demo scripts: the game loop, the pipe and cactus queues, and the generation-replacement policy.

## Findings

| source | as written | input that shows it | evidently intended | confidence | as-written member | corrected member |
|---|---|---|---|---|---|---|
| NeuralNetworkLibrary/NeuralNetwork/NeuralNetwork.cs:337 (same guard at line 56) | `z > weights[x][y].Length` skips only cells more than one past the supplied row's end | one input, one output, supplied weights `[[[]]]`: the guard lets `z = 0` through and `weights[0][0][0]` raises IndexOutOfRangeException | `z > weights[x][y].Length - 1`: the missing cell is skipped and keeps 0 | high; not executed | Legacy.ShortWeightRowFaults | Network.OverlayWeights |
| NeuralNetworkLibrary/NeuralNetwork/NeuralNetwork.cs:379 | `x > _biases.Length - 1 \|\| y > biases[x].Length` checks `x` against the network's own rows and `y` one too far | one input, one output, supplied biases `[]`: `biases[0]` raises IndexOutOfRangeException | `x > biases.Length - 1 \|\| y > biases[x].Length - 1`: the missing cell keeps 0 | high; not executed | Legacy.MissingBiasRowFaults | Network.OverlayBiases |
| NeuralNetworkLibrary/NeuralNetwork/NeuralNetwork.cs:88 | `y > value[x].Length` skips only cells more than one past the supplied row's end | a 1-1 network, `Biases = [[]]`: `value[0][0]` raises IndexOutOfRangeException | `y > value[x].Length - 1`: the old bias is kept | high; not executed | Legacy.ShortBiasRowSetterFaults | Network.SetBiases |
| NeuralNetworkLibrary/NeuralNetwork/NeuralNetwork.cs:271-273 | the clone constructor copies the tensor references | a 1-1 network with weight 0, cloned, then `AddRandomNumbersToWeights` on the clone with a delegate drawing 1: the source's weight becomes 1. The demos clone the champion and perturb 40 of the clones, which drifts the champion and its unperturbed clone too. Their `Dino.Start`/`FlappyBird.Start` (Examples/Unity/Dino-Run/Assets/Scripts/Dino.cs:48, Examples/Unity/Flappy-Bird/Assets/Scripts/FlappyBird.cs:24) then replace every instantiated clone's `net` with a fresh network, so in the demos the drift is never evaluated | copy the tensors: perturbing a clone leaves the source unchanged | high; not executed | Aliasing.SharedCloneCounterexample | Aliasing.CloneDeep |
| NeuralNetworkLibrary/NeuralNetwork/NeuralNetwork.cs:402-412 | the default delegate scales a unit draw `u` from [-1, 1) by `-min` when `u < 0` and by `max` otherwise, so its values lie between `min` and `max` only when `min <= 0 <= max` | `min = 0.5, max = 1` with `u = -0.5`: the delegate returns 0.25, below the minimum that lines 176-179 and the `minWeight`/`minBias` parameters (lines 230-232) promise | map the unit draw onto the bounds, `min + (u + 1) / 2 * (max - min)` | high; not executed | Network.DefaultLeavesBounds | Network.IntendedRespectsBounds |
