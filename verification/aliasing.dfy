/** Tensor storage and object identity. A C# network refers to its weight
    and bias arrays; the clone constructor copies those references, so a
    clone and its source share storage and a mutation through either shows
    through both. `CloneAsWritten` models that; `CloneDeep` copies the
    storage, which is what a caller needs when it perturbs clones of one
    network and keeps one clone unperturbed. (In the Unity demos the drift
    goes unobserved: each demo object's `Start` replaces the cloned network
    with a fresh one.) */
module Aliasing {
  import opened Errors
  import opened Tensors
  import opened Activations
  import opened Network
  import Mutation

  /** The mutable arrays one network object refers to. */
  datatype Params = Params(weights: Tensor3, biases: Tensor2)

  /** Allocated tensor storage; references below `next` may be in use. */
  datatype Heap = Heap(cells: map<nat, Params>, next: nat)

  predicate HeapOk(h: Heap)
  {
    forall r :: r in h.cells ==> r < h.next
  }

  /** A network object: its layer array and delegates, and a reference to
      its tensor storage. */
  datatype Instance =
    | NotInit
    | Instance(layers: seq<int>, storage: nat, sampler: Sampler, activation: Activation)

  /** The instance refers to allocated storage. */
  predicate Live(h: Heap, i: Instance)
  {
    i.Instance? ==> i.storage in h.cells
  }

  /** The network an instance currently denotes. */
  function View(h: Heap, i: Instance): (n: Network)
    requires Live(h, i)
    ensures n.Uninitialized? <==> i.NotInit?
  {
    match i
    case NotInit => Uninitialized
    case Instance(layers, s, sampler, act) =>
      Initialized(layers, h.cells[s].weights, h.cells[s].biases, sampler, act)
  }

  /** Stores a constructed network's tensors in fresh storage. */
  function Allocate(h: Heap, net: Network): (p: (Heap, Instance))
    requires HeapOk(h)
    ensures HeapOk(p.0) && Live(p.0, p.1) && View(p.0, p.1) == net
    ensures forall r :: r in h.cells ==> r in p.0.cells && p.0.cells[r] == h.cells[r]
  {
    match net
    case Uninitialized => (h, NotInit)
    case Initialized(layers, w, b, sampler, act) =>
      (Heap(h.cells[h.next := Params(w, b)], h.next + 1), Instance(layers, h.next, sampler, act))
  }

  /** The clone constructor as written: the clone refers to the source's
      storage. */
  function CloneAsWritten(h: Heap, source: Option<Instance>): (r: Result<Instance>)
    requires source.Some? ==> Live(h, source.value)
    ensures source.None? <==> r == Err(NullArg)
    ensures source == Some(NotInit) <==> r == Err(NotInitialized)
    ensures r.Ok? ==> Live(h, r.value) && View(h, r.value) == View(h, source.value)
    ensures r.Ok? ==> r.value.storage == source.value.storage
  {
    match source
    case None => Err(NullArg)
    case Some(i) => if i.NotInit? then Err(NotInitialized) else Ok(i)
  }

  /** The clone constructor with deep copying: the clone gets fresh storage
      holding copies of the source's tensors. */
  function CloneDeep(h: Heap, source: Option<Instance>): (r: Result<(Heap, Instance)>)
    requires HeapOk(h)
    requires source.Some? ==> Live(h, source.value)
    ensures source.None? <==> r == Err(NullArg)
    ensures source == Some(NotInit) <==> r == Err(NotInitialized)
    ensures r.Ok? ==> && HeapOk(r.value.0) && Live(r.value.0, r.value.1)
                      && Live(r.value.0, source.value)
                      && View(r.value.0, r.value.1) == View(h, source.value)
                      && View(r.value.0, source.value) == View(h, source.value)
                      && r.value.1.storage != source.value.storage
  {
    match source
    case None => Err(NullArg)
    case Some(i) =>
      if i.NotInit? then Err(NotInitialized)
      else Ok(Allocate(h, View(h, i)))
  }

  /** `AddRandomNumbersToWeights` called on an instance: the perturbed
      weights are written into the instance's storage. */
  function MutateWeights(h: Heap, i: Instance, minimumValue: real, maximumValue: real, start: nat): (r: Result<Heap>)
    requires Live(h, i) && Valid(View(h, i))
    ensures r.Err? <==> i.NotInit?
    ensures r.Ok? ==> r.value.next == h.next && r.value.cells.Keys == h.cells.Keys
    ensures r.Ok? ==> forall s :: s in h.cells && s != i.storage ==> r.value.cells[s] == h.cells[s]
    ensures r.Ok? ==> View(r.value, i) == Mutation.AddRandomNumbersToWeights(View(h, i), minimumValue, maximumValue, start).value
  {
    match Mutation.AddRandomNumbersToWeights(View(h, i), minimumValue, maximumValue, start)
    case Err(e) => Err(e)
    case Ok(n) => Ok(h.(cells := h.cells[i.storage := Params(n.weights, n.biases)]))
  }

  /** `AddRandomNumbersToBiases` called on an instance: the perturbed
      biases are written into the instance's storage. */
  function MutateBiases(h: Heap, i: Instance, minimumValue: real, maximumValue: real, start: nat): (r: Result<Heap>)
    requires Live(h, i) && Valid(View(h, i))
    ensures r.Err? <==> i.NotInit?
    ensures r.Ok? ==> r.value.next == h.next && r.value.cells.Keys == h.cells.Keys
    ensures r.Ok? ==> forall s :: s in h.cells && s != i.storage ==> r.value.cells[s] == h.cells[s]
    ensures r.Ok? ==> View(r.value, i) == Mutation.AddRandomNumbersToBiases(View(h, i), minimumValue, maximumValue, start).value
  {
    match Mutation.AddRandomNumbersToBiases(View(h, i), minimumValue, maximumValue, start)
    case Err(e) => Err(e)
    case Ok(n) => Ok(h.(cells := h.cells[i.storage := Params(n.weights, n.biases)]))
  }

  /** As written, perturbing a clone perturbs its source: afterwards both
      denote the same perturbed network. */
  lemma SharedCloneMutationReachesSource(h: Heap, source: Instance, minimumValue: real, maximumValue: real, start: nat)
    requires source.Instance? && Live(h, source) && Valid(View(h, source))
    ensures var clone := CloneAsWritten(h, Some(source)).value;
            var h' := MutateWeights(h, clone, minimumValue, maximumValue, start).value;
            View(h', source) == View(h', clone)
            && View(h', source) == Mutation.AddRandomNumbersToWeights(View(h, source), minimumValue, maximumValue, start).value
  {
  }

  /** Input that shows the sharing: a 1-1 network with weight 0, cloned as
      written and perturbed by a delegate that draws 1, has a source whose
      weight became 1. */
  lemma SharedCloneCounterexample()
    ensures var h := Heap(map[0 := Params([[[0.0]]], [[0.0]])], 1);
            var source := Instance([1, 1], 0, (k: nat, lo: real, hi: real) => 1.0, Linear);
            var clone := CloneAsWritten(h, Some(source)).value;
            var h' := MutateWeights(h, clone, -1.0, 1.0, 0).value;
            View(h, source).weights == [[[0.0]]] && View(h', source).weights == [[[1.0]]]
  {
    var h := Heap(map[0 := Params([[[0.0]]], [[0.0]])], 1);
    var source := Instance([1, 1], 0, (k: nat, lo: real, hi: real) => 1.0, Linear);
    var w := View(MutateWeights(h, source, -1.0, 1.0, 0).value, source).weights;
    assert InBounds3([[[0.0]]], 0, 0, 0);
    assert w[0][0][0] == 1.0;
    assert w[0][0] == [1.0];
    assert w[0] == [[1.0]];
  }

  /** With deep copying, perturbing a clone leaves its source exactly as it
      was, while the clone carries the perturbation. */
  lemma DeepCloneIsolatesSource(h: Heap, source: Instance, minimumValue: real, maximumValue: real, start: nat)
    requires HeapOk(h) && source.Instance? && Live(h, source) && Valid(View(h, source))
    ensures var (h1, clone) := CloneDeep(h, Some(source)).value;
            var h2 := MutateWeights(h1, clone, minimumValue, maximumValue, start).value;
            Live(h2, source)
            && View(h2, source) == View(h, source)
            && View(h2, clone) == Mutation.AddRandomNumbersToWeights(View(h, source), minimumValue, maximumValue, start).value
  {
    var (h1, clone) := CloneDeep(h, Some(source)).value;
    assert View(h1, clone) == View(h, source);
    var h2 := MutateWeights(h1, clone, minimumValue, maximumValue, start).value;
    assert h2.cells[source.storage] == h1.cells[source.storage];
  }
}
