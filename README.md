# microgradjs: a Dafny model of the scalar autograd engine

This project models the core of microgradjs. That core is the scalar
`Value` node, the operations that build a computation graph from such
nodes, and `backward()`, the reverse-mode pass that fills in every
node's `grad`. The model also covers the parameter bookkeeping of
`Neuron`, `Layer` and `MLP`, and the one-hot label encoder
`makeOutputNumber`.

The `Value` objects of one computation live in an arena: the class
`Arena.Graph`. Its field `nodes` is a sequence of `Node(data, prev,
rule)` values and its field `grad` a sequence of reals. An operand is
named by its index, and every operand index is smaller than the index
of the node that uses it. Each operation appends fresh nodes and leaves
every existing one alone, as the source does. The `_backward` closure a
node is created with is the tag `LocalRule`. `Value.ApplyRule` gives
its meaning, and `Arena.Graph.RunRule` carries it out in place on
`grad`.

`backward()` is modelled as the source writes it:
- `Topo.BuildTopo` is the recursive depth-first `buildTopo`, proved to
  compute the functional traversal `Topo.Visit`.
- `Backprop.Reversed` is `topo.reverse()`.
- The loop over the reversed list runs `RunRule` once per node.

`Arena.Graph.Backward` is proved to leave `grad ==
BackwardGrads(nodes, old(grad), root)`. The properties of
`BackwardGrads` are proved as lemmas:
- the root ends at 1;
- nodes outside the root's reach are untouched;
- each node's gradient is final before its own rule runs;
- the chain rule holds, summed over every use of a shared operand;
- stale gradients carry over.

Two behaviours differ from the usual rule that every closure adds into
its operands' gradients:

- **The exp rule overwrites.** The closure `exp` installs assigns the
  operand's gradient instead of adding to it (`MicroGrad.ts:58`). The
  model does the same. `Value.ExpRuleOverwrites` states the assignment,
  and `Scenarios.ExpLosesEarlierGradient` shows the chain-rule equation
  failing on `x.exp().add(x)`. The chain-rule lemma is therefore stated
  for roots that reach no exp node.
- **A second `backward()` need not double the gradients.** `backward()`
  resets no gradient, so the interior nodes keep the gradients the
  first call left them, and a second call compounds them.
  - On `x.mul(y).add(v(1))` with x = 2 and y = 3, `x.grad` goes from
    3 to 9, not 6 (`Scenarios.StaleSecondBackward`).
  - When the root reaches no exp node, and among the nodes it reaches
    every stale gradient other than the root's sits on a leaf, a call
    adds exactly the fresh gradients (`Backprop.StaleLeafGradsCarryOver`).
    Nodes the root does not reach may hold anything, such as the 1 an
    earlier `backward()` left on another root that shares leaves.

Modules:
- `Value`: nodes, `**`, the tanh forward formula, the local rules, and
  reachability.
- `Topo`: `buildTopo`.
- `Backprop`: the order `backward()` runs rules in, and the properties
  of the gradients it produces.
- `Arena`: the graph class, with the operations and `backward()` as
  methods.
- `Network`: `Neuron`, `Layer` and `MLP` construction and
  `parameters()`.
- `Utils`: `makeOutputNumber`.
- `Scenarios`: worked graphs, and the gradients of `sub` and `div`.

## Model

| member | source | states |
|---|---|---|
| Value.Power | MicroGrad.ts:65 | `x ** k` for an integer k: a natural power for k >= 0, and for k < 0 (with x nonzero) the reciprocal of x^-k |
| Value.TanhFromExp | MicroGrad.ts:42 | for `e = Math.exp(2x) > 0`, `(e - 1) / (e + 1)` lies strictly between -1 and 1, and is 0 exactly when e is 1 |
| Value.ApplyRule | MicroGrad.ts:18-72 | running a node's `_backward` closure changes the gradients of that node's operands and of no other node |
| Value.RuleAccumulates | MicroGrad.ts:18-72 | every rule except exp adds, into each operand x, its local derivative times the node's gradient, once for each operand slot that holds x |
| Value.MulAccumulates | MicroGrad.ts:32-35 | the mul rule adds the other operand's data times the output's gradient into each operand |
| Value.PowAccumulates | MicroGrad.ts:67-69 | the pow rule adds `k * x^(k-1)` times the output's gradient into the base |
| Value.MulSharedOperand | MicroGrad.ts:32-35 | for `x.mul(x)`, x gains `2 * x.data * out.grad`: both updates add into the same gradient |
| Value.ExpRuleOverwrites | MicroGrad.ts:57-59 | the exp rule sets the operand's gradient to `out.data * out.grad`, discarding what it held before |
| Value.ReachBelow | MicroGrad.ts:9-16 | every node reachable from v through `_prev` was created no later than v |
| Value.Reach | MicroGrad.ts:11 | the nodes reachable from v through `_prev` include v and each of its operands |
| Value.ReachAll | MicroGrad.ts:82-84 | the nodes reachable from a list of children include every child |
| Value.LocalDerivative | MicroGrad.ts:21-69 | the factor each closure multiplies the output's gradient by, per operand slot; for tanh with output in (-1, 1) it lies in (0, 1], and for exp with positive output it is positive |
| Topo.Visit | MicroGrad.ts:79-87 | `buildTopo(v)` as a function of the `visited` set and `topo` list: an already visited node changes nothing; otherwise v is marked, its children are visited in order, and v is pushed (no contract; `Topo.VisitSound` states its properties) |
| Topo.VisitAll | MicroGrad.ts:82-84 | the loop over the children, one `buildTopo` call per child in order (no contract; `Topo.VisitAllSound` states its properties) |
| Topo.BuildTopo | MicroGrad.ts:79-89 | the recursive `buildTopo`, with its loop over `_prev`, computes exactly the traversal `Visit` from the given `visited` and `topo` |
| Topo.VisitFreshEnds | MicroGrad.ts:80-86 | `buildTopo` on an unvisited node ends with that node pushed last |
| Topo.VisitSound | MicroGrad.ts:79-87 | `buildTopo(v)` keeps `topo` free of duplicates and every node after its operands; it only extends `topo`, appends only nodes reachable from v, leaves no new node half-visited, and ends with v in `topo` |
| Topo.VisitAllSound | MicroGrad.ts:82-84 | the loop over the children keeps the same invariant and leaves every child in `topo` |
| Topo.ClosedHoldsReach | MicroGrad.ts:82-85 | a list that holds v and every node's operands before the node holds everything reachable from v |
| Topo.TopoOrder | MicroGrad.ts:79-89 | `buildTopo(root)` from empty state lists each node reachable from the root exactly once, operands before users, with the root last |
| Backprop.Reversed | MicroGrad.ts:93 | `topo.reverse()`: the same length, with element k taken from position `n - 1 - k` |
| Backprop.ReversedOperandsLater | MicroGrad.ts:93 | reversing a list in which operands come first gives one in which every operand comes after its user |
| Backprop.BackwardOrder | MicroGrad.ts:89-93 | the order `backward()` runs rules in starts at the root, repeats nothing, puts every node before its operands, and holds exactly the nodes reachable from the root |
| Backprop.BackwardOrderIsVisit | MicroGrad.ts:89-93 | that order is the reversed result of the depth-first traversal |
| Backprop.Propagate | MicroGrad.ts:95-97 | the rule loop over a given order, as a function of the gradient vector; it keeps the vector's length (the lemmas below state its properties) |
| Backprop.BackwardGrads | MicroGrad.ts:89-97 | the gradients `backward()` leaves: seed the root with 1, then run the loop over `BackwardOrder`; it keeps the vector's length (the Backprop lemmas state its properties) |
| Backprop.PropagateStep | MicroGrad.ts:95-97 | running one more node of the loop applies that node's rule to the gradients so far |
| Backprop.PropagateNext | MicroGrad.ts:95-97 | the first k+1 iterations are the first k iterations followed by node k's rule |
| Backprop.PropagateAppend | MicroGrad.ts:95-97 | running two runs of nodes in sequence is running their concatenation |
| Backprop.PropagateUntouched | MicroGrad.ts:95-97 | a gradient no executed rule names as an operand is unchanged |
| Backprop.GradSettled | MicroGrad.ts:95-97 | when the loop reaches a node, that node's gradient already has its final value |
| Backprop.RestDoesNotUse | MicroGrad.ts:93-97 | in the reversed order, no node at or after position k uses the node at position k |
| Backprop.BackwardRootIsOne | MicroGrad.ts:92-97 | after `backward()` the root's gradient is 1, whatever it held before |
| Backprop.BackwardFrame | MicroGrad.ts:74-98 | `backward()` leaves the gradient of every node the root does not reach unchanged |
| Backprop.PropagateReceives | MicroGrad.ts:95-97 | when no node of the order is exp, a node's gradient after the loop is its start value plus the contributions each executed rule added |
| Backprop.ReceivedIsInflow | MicroGrad.ts:95-97 | those contributions equal the chain-rule sum, evaluated at the final gradients |
| Backprop.BackwardChainRule | MicroGrad.ts:74-98 | when the root reaches no exp node, each node's final gradient is its seeded value plus, over every user the root reaches and every operand slot, that user's local derivative times its final gradient (users the root does not reach are not counted) |
| Backprop.PropagateShift | MicroGrad.ts:95-97 | when no node of the order is exp, extra gradient sitting on the order's leaves (and on nodes outside it) passes through the loop unchanged and adds to the result |
| Backprop.StaleLeafGradsCarryOver | MicroGrad.ts:74-98 | gradients are not reset: when the root reaches no exp node and, among the nodes it reaches, every stale gradient except the root's sits on a leaf, each non-root node ends with the fresh result plus its stale gradient |
| Arena.Graph.Push | MicroGrad.ts:9-16 | the `Value` constructor appends one node with the given data, operands and rule, and a gradient of 0, and changes nothing else |
| Arena.Graph.Leaf | MicroGrad.ts:186-188 | `v(num)` appends a leaf with no operands and the no-op rule |
| Arena.Graph.Add | MicroGrad.ts:18-27 | `add` appends a node with data `a + b`, operands `[a, b]` and the add rule |
| Arena.Graph.Mul | MicroGrad.ts:29-38 | `mul` appends a node with data `a * b`, operands `[a, b]` and the mul rule |
| Arena.Graph.Pow | MicroGrad.ts:64-72 | `pow(k)` appends a node with data `a ** k`, operand `[a]` and the pow rule for k |
| Arena.Graph.Tanh | MicroGrad.ts:40-51 | `tanh` appends a node whose data is computed from `Math.exp(2 * a)` and lies in (-1, 1) |
| Arena.Graph.Exp | MicroGrad.ts:53-62 | `exp` appends a node with data `Math.exp(a)` and the exp rule |
| Arena.Graph.Neg | MicroGrad.ts:104-106 | `neg` appends a leaf -1 and its product with a; the result's data is `-a` |
| Arena.Graph.Sub | MicroGrad.ts:100-102 | `sub` appends the three nodes of `a.add(b.neg())`; the result's data is `a - b` |
| Arena.Graph.Div | MicroGrad.ts:108-110 | `div` appends the two nodes of `a.mul(b.pow(-1))`; for nonzero b, the result times b is a |
| Arena.Graph.RunRule | MicroGrad.ts:96 | `node._backward()` updates `grad` in place to exactly `ApplyRule` and leaves the nodes unchanged |
| Arena.Graph.AddBackward | MicroGrad.ts:21-24 | the add closure, in place, equals `ApplyRule` for that node |
| Arena.Graph.MulBackward | MicroGrad.ts:32-35 | the mul closure, in place, equals `ApplyRule` for that node |
| Arena.Graph.PowBackward | MicroGrad.ts:67-69 | the pow closure, in place, equals `ApplyRule` for that node |
| Arena.Graph.TanhBackward | MicroGrad.ts:46-48 | the tanh closure, in place, equals `ApplyRule` for that node |
| Arena.Graph.ExpBackward | MicroGrad.ts:57-59 | the exp closure, in place, equals `ApplyRule` for that node |
| Arena.Graph.Backward | MicroGrad.ts:74-98 | `backward()` leaves `grad` equal to `BackwardGrads` of the old gradients, the function the Backprop lemmas describe, and leaves the nodes unchanged |
| Network.NeuronParameters | MicroGrad.ts:132-134 | `parameters()` of a neuron holds the weights in order, then the bias |
| Network.LayerParameters | MicroGrad.ts:148-155 | `Layer.parameters()`, the left fold over the neurons (no contract; `Network.LayerParametersConcat` and `Network.LayerParameterCount` state its properties) |
| Network.MlpParameters | MicroGrad.ts:175-182 | `MLP.parameters()`, the left fold over the layers (no contract; `Network.MlpParametersConcat` and `Network.MlpParameterCount` state its properties) |
| Network.LayerParametersAppend | MicroGrad.ts:151-154 | the fold appends each neuron's parameters after those of the neurons before it |
| Network.LayerParametersConcat | MicroGrad.ts:148-155 | a layer's parameter list for two runs of neurons is the concatenation of the two runs' lists |
| Network.LayerParameterCount | MicroGrad.ts:140-155 | a layer of `nout` neurons with `nin` inputs has `nout * (nin + 1)` parameters |
| Network.MlpParametersAppend | MicroGrad.ts:178-181 | the fold appends each layer's parameters after those of the layers before it |
| Network.MlpParametersConcat | MicroGrad.ts:175-182 | a network's parameter list for two runs of layers is the concatenation of the two runs' lists |
| Network.NewNeuron | MicroGrad.ts:117-122 | `new Neuron(nin)` has `nin` weights, and `parameters()` returns the initial values in the order they were created |
| Network.NewLayer | MicroGrad.ts:140-142 | `new Layer(nin, nout)` has `nout` neurons of `nin` weights each, and `parameters()` returns the initial values in creation order |
| Network.Sizes | MicroGrad.ts:162 | `sz = [nin, ...nouts]` |
| Network.SizedAppend | MicroGrad.ts:163-165 | appending the layer from `sz[m - 1]` to `sz[m]` extends a correctly sized prefix |
| Network.LayersFrom | MicroGrad.ts:163-165 | layer i reads `sz[i]` inputs and has `sz[i + 1]` neurons, and the parameters come back in creation order |
| Network.NewMlp | MicroGrad.ts:161-166 | `new MLP(nin, nouts)` has one layer per entry of `nouts`, layer i going from `sz[i]` to `sz[i + 1]`, with its initial values returned by `parameters()` in order |
| Network.MlpParameterCount | MicroGrad.ts:175-182 | a network's parameter count is the sum, over its layers, of `sz[i + 1] * (sz[i] + 1)` |
| Utils.MakeOutputNumber | utils.ts:7-15 | ten entries, each 0 or 1; entry i is 1 exactly when `num == i`; a digit label gives a single 1 at its own index, and any other number gives all zeros |
| Scenarios.VisitLeaf | MicroGrad.ts:80-86 | `buildTopo` on an unvisited leaf marks it and pushes it |
| Scenarios.VisitUnary | MicroGrad.ts:80-86 | `buildTopo` on an unvisited one-operand node visits the operand, then pushes the node |
| Scenarios.VisitBinary | MicroGrad.ts:80-86 | `buildTopo` on an unvisited two-operand node visits the first operand, then the second, then pushes the node |
| Scenarios.AddStep | MicroGrad.ts:21-24 | the add closure, one operand slot at a time |
| Scenarios.MulStep | MicroGrad.ts:32-35 | the mul closure, one operand slot at a time |
| Scenarios.PowStep | MicroGrad.ts:67-69 | the pow closure at its base |
| Scenarios.SubGradients | MicroGrad.ts:100-102 | the three closures `a.sub(b)` creates pass the output's gradient to a and subtract it from b |
| Scenarios.DivGradients | MicroGrad.ts:108-110 | the two closures `a.div(b)` creates give the quotient rule: a gains `g * b^-1` and b loses `g * a * b^-2` |
| Scenarios.InverseSquare | MicroGrad.ts:68 | `b ** -2` is the reciprocal of `b * b` for nonzero b |
| Scenarios.SquareTopo | MicroGrad.ts:79-89 | on `x.mul(y).add(x.pow(2))`, `buildTopo(out)` lists x, y, the product, the square and out |
| Scenarios.SquareBackward | MicroGrad.ts:74-98 | on that graph with x = -2 and y = 3, `backward()` gives `x.grad = y + 2x = -1` and `y.grad = x = -2` |
| Scenarios.SquareExample | MicroGrad.ts:18-98 | building that graph with the arena's operations and running `backward()` gives out = -2, `x.grad = -1` and `y.grad = -2` |
| Scenarios.WeightBackward | MicroGrad.ts:74-98 | on `w.mul(w).add(w.mul(v(3)))` with w = 2, w's three uses add up to `w.grad = 2w + 3 = 7` |
| Scenarios.WeightExample | MicroGrad.ts:18-98 | building that graph and running `backward()` gives out = 10 and `w.grad = 7` |
| Scenarios.ExpLosesEarlierGradient | MicroGrad.ts:57-59 | on `x.exp().add(x)`, `backward()` leaves `x.grad = e` where the chain-rule sum is `e + 1`, so the chain-rule equation fails |
| Scenarios.ExpExample | MicroGrad.ts:53-98 | building that graph and running `backward()` gives `x.grad = Math.exp(x)` |
| Scenarios.TanhTopo | MicroGrad.ts:79-89 | on `v(0).tanh()`, `buildTopo(out)` lists x, then out |
| Scenarios.TanhAtZeroBackward | MicroGrad.ts:46-48 | on `x = v(0)`, `out = x.tanh()` from fresh gradients, `backward()` gives x the gradient 1, since the local derivative `1 - t^2` is 1 at t = 0 |
| Scenarios.TanhExample | MicroGrad.ts:40-51 | building `v(0).tanh()` with the arena's operations and running `backward()` gives out = 0 and `x.grad = 1` |
| Scenarios.StaleSecondBackward | MicroGrad.ts:74-98 | on `x.mul(y).add(v(1))`, the first `backward()` gives x 3 and y 2; a second one without zeroing gives x 9 and y 6 |

## Left out

- Random initial values: `getRandomNeuronValue` and `Math.random` are
  not modelled. The constructors take their initial values from a
  supplied list `init`, in the order the source creates them.
- `Neuron.call`, `Layer.call` and `MLP.call` (the forward pass of the
  network) are not modelled. They only compose the modelled `add`,
  `mul` and `tanh`.
- `normalize`, `getTrainingSet` (file and CSV reading) and the driver
  scripts are I/O and are not part of this model.
- `label` and `_op` are display strings that no computation reads, so
  they are left out.
- Numbers are mathematical reals rather than IEEE-754 doubles. Rounding,
  overflow, infinities and NaN are not modelled.
- `Math.exp` is a parameter of the graph (`MathExp`), assumed positive
  everywhere and equal to 1 at 0. Its other values are not computed.
- Value.Power, Arena.Graph.Pow and Arena.Graph.Div: a zero base with a
  negative exponent gives 0 here, where JavaScript gives Infinity. So
  `a.div(b)` with b = 0 gives 0 rather than Infinity or NaN. Non-integer
  exponents to `pow` are not modelled.
- Network.NewNeuron: sizes are natural numbers. The `RangeError` that
  `new Array(nin)` throws for a negative or fractional `nin`, or one of 2^32 or more
  (`MicroGrad.ts:118`) is not modelled.
- Network.NewLayer: sizes are natural numbers. The `RangeError` that
  `new Array(nout)` throws for a negative or fractional `nout`, or one of 2^32 or more
  (`MicroGrad.ts:141`), or that its neurons' constructor throws for
  such an `nin`, is not modelled.
- Network.NewMlp: sizes are natural numbers. The `RangeError` its layers'
  constructors throw for a negative or fractional `nin` or entry of
  `nouts`, or one of 2^32 or more, is not modelled.
- Topo.Visit, Topo.VisitAll, Network.LayerParameters and
  Network.MlpParameters carry no contract of their own. Their
  properties are stated by the lemmas named in their rows.
- Backprop.Reversed: `topo.reverse()` reverses the array in place. The
  model builds the reversed sequence as a new value instead.
- Utils.MakeOutputNumber: a NaN label is not modelled. A real number
  takes its place.
- Backprop.BackwardChainRule: stated only for roots that reach no exp
  node, because the exp closure overwrites rather than accumulates. Its sum
  runs over the users the root reaches; a stale gradient left by users
  outside that part is part of the node's starting value.
- Backprop.StaleLeafGradsCarryOver: stated only for roots that reach no
  exp node, and only when every stale gradient on a node the root
  reaches, other than the root's own, sits on a leaf. Stale gradients on
  interior nodes the root reaches compound instead.
- Scenarios.SubGradients and Scenarios.DivGradients: stated for the
  rules the derived operation creates, run in sequence. They do not
  cover the full `backward()` of an arbitrary graph containing them.
