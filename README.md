# rubot: run conditions and the synthetic fuzzing game

This project models two small sequential parts of `rubot`, a game-tree search
library.

**1. Run conditions.** These are the budgets an alpha-beta search polls.
- The search calls `step` before it expands a node and `depth` before it starts a new depth tier. It stops as soon as an answer is `false`.
- `ToCompletion` always says yes.
- `Depth(d)` allows tiers below `d`.
- `Steps(n)` converts into a counter `InnerSteps` that allows a step while the count, this call included, is below `n`.
- The blanket `IntoRunCondition` impl hands a condition through unchanged.
- `Logger` wraps a condition. Each time it is borrowed for a search (`&mut Logger`) it resets its step and depth counters. It then forwards every poll while counting steps and recording the last depth polled.
- The `Game::look_ahead` default clones the state and executes on the clone.

**2. The synthetic game of the `to_completion` fuzz target.**
- `XorShiftRng` is a xorshift128 generator seeded from four input bytes.
- `Node::from_bytes` grows a tree. It adds one leaf per remaining byte, at the end of a random walk from the root.
- `impl Game for Node` plays on that tree: the actions are the child indices, `execute` moves to a child, and `look_ahead` reads the child's fitness.

Modules:
- `RunCondition` (run_condition.dfy):
  - `ToCompletion` and `Depth` are values.
  - `InnerSteps` is a class, because its counter changes in place.
  - `Condition` is their union, standing for "some `RunCondition`".
  - Every poll is also a transition on plain values (`State`, `Respond`, `Run`). The methods are proved against that transition, and whole sequences of polls are reasoned about as lemmas on `Run`.
- `Logging` (logger.dfy):
  - `Logger` and `InnerLogger` are classes whose methods update the logger's fields.
  - `LogState`, `LoggedRespond` and `LoggedRun` are the value-level transition.
- `XorShift` (xorshift.dfy):
  - The generator is a class with four `bv32` words, shifted in place.
  - `Next` is the value-level step.
- `SyntheticTree` (synthetic_tree.dfy):
  - `Node` is a value tree.
  - `from_bytes` walks a mutable borrow `pos` down the tree and then pushes onto `pos.children`. Here the walk is the path of child indices it follows (`Descent`/`Descend`), and the push rebuilds the tree along that path (`AppendAt`).
  - `FromBytes` keeps the source's loops and is proved equal to the value definition `Tree`.

Integer widths:
- `u32` counters are a newtype. `+= 1` wraps modulo 2^32, as in a release build.
- The generator's `Wrapping<u32>` words are `bv32`.
- `(i ^ 1) as i8` is the two's-complement reading of a byte.
- `next_u32() as usize % (len + 1)` is computed on unbounded integers. It cannot overflow, because `len + 1` fits in `usize` for any real vector.

Where the documentation and the code disagree, the model follows the code:
- `Steps(n)` lets through only `n - 1` steps, not "the first `n`" as the doc comment at src/lib.rs:201 says. `step` increments before it compares (src/lib.rs:226-229). See `StepsAllowsNMinusOne`.
- `Logger::depth` is documented as "the deepest completed depth" (src/lib.rs:357). The code stores the last value passed to `InnerLogger::depth` (src/lib.rs:401). See `LoggerIsTransparent` (`FinalDepth`).
- `Depth(d)` is documented to return false "once the current depth is bigger than" `d` (src/lib.rs:290). The code `self.0 > depth` (src/lib.rs:323) also refuses depth `d` itself. See `Depth.EnterDepth` and `DepthRun`.

The reference definitions that the contracts are stated in terms of:
- `Respond` is one poll of a built-in condition (src/lib.rs:224-235, 278-288, 315-325).
- `LoggedRespond` is one poll through the logger (src/lib.rs:394-404).
- `Acquired` is the logger's state after acquisition (src/lib.rs:387-391).
- `Released` is its state after the `InnerLogger` is dropped (src/lib.rs:406-410).
- `Mix` and `Next` are one generator step (fuzz/fuzz_targets/to_completion.rs:21-30).
- `FromBeBytes` is the seed word (fuzz/fuzz_targets/to_completion.rs:97).
- `Grow` and `Tree` are the tree `from_bytes` builds (fuzz/fuzz_targets/to_completion.rs:95-113).

## Model

| member | source | states |
|---|---|---|
| RunCondition.WrappingIncrement | src/lib.rs:227 | the step counter's `+= 1` is `(x + 1) mod 2^32` |
| RunCondition.ToCompletion.Step | src/lib.rs:278-282 | `ToCompletion` allows every step |
| RunCondition.ToCompletion.EnterDepth | src/lib.rs:284-287 | `ToCompletion` allows every depth tier |
| RunCondition.Depth.Step | src/lib.rs:315-319 | `Depth` allows every step |
| RunCondition.Depth.EnterDepth | src/lib.rs:321-324 | `Depth(limit)` allows tier `d` if and only if `d < limit` |
| RunCondition.InnerSteps.Step | src/lib.rs:226-229 | the counter goes up by one (wrapping), and the answer is true exactly when the new count is below the limit |
| RunCondition.InnerSteps.EnterDepth | src/lib.rs:232-234 | a step budget never refuses a tier and changes nothing |
| RunCondition.Condition.Step | src/lib.rs:253 | polling any modelled condition for a step moves it to the state, and gives the answer, of the value transition `Respond` |
| RunCondition.Condition.EnterDepth | src/lib.rs:254 | the same for a depth poll |
| RunCondition.IntoRunCondition | src/lib.rs:190-222 | a run condition converts to itself; `Steps(n)` converts to a fresh counter at 0 with limit `n` |
| RunCondition.Run | src/lib.rs:252-255 | a sequence of polls gives one answer per poll |
| RunCondition.StepsRun | src/lib.rs:224-235 | on any mix of polls, a counter answers each step poll with "steps so far, this one included, below the limit" and each depth poll with true; it ends with its count raised by the number of step polls |
| RunCondition.StepsKthCall | src/lib.rs:216-229 | after `Steps(n)` is converted, the k-th `step` call answers `k < n` |
| RunCondition.StepsAllowsNMinusOne | src/lib.rs:216-229 | of k step calls on `Steps(n)`, exactly `min(k, n - 1)` are allowed (none for n = 0 or 1) |
| RunCondition.StepsStayExhausted | src/lib.rs:226-234 | once a counter refuses a step, it refuses every later step and still allows every tier |
| RunCondition.CompletionRun | src/lib.rs:278-288 | `ToCompletion` answers every poll of any sequence with true and never changes |
| RunCondition.DepthRun | src/lib.rs:315-325 | `Depth(limit)` answers any sequence with true for steps and `d < limit` for tiers, and never changes |
| RunCondition.DepthZeroRefusesAllTiers | src/lib.rs:321-324 | `Depth(0)` refuses every tier |
| Logging.LoggedRun | src/lib.rs:394-404 | a sequence of polls through the logger gives one answer per poll |
| Logging.LoggerIsTransparent | src/lib.rs:394-404 | through the logger, any sequence of polls gets the same answers and leaves the wrapped condition in the same state as without it; the logger has counted the step polls (mod 2^32), remembers the last depth polled and keeps its duration |
| Logging.SearchesAreIndependent | src/lib.rs:387-410 | after two searches through one logger, each ending with the release of its `InnerLogger`, it reports only the second search's steps, depth and duration, while the wrapped condition carries on from where the first search left it |
| Logging.Logger.constructor | src/lib.rs:340-347 | `Logger::new` starts with zero steps, depth and duration around the converted condition |
| Logging.Logger.IntoRunCondition | src/lib.rs:387-391 | acquiring the logger resets only its step and depth counters and hands out an `InnerLogger` on it |
| Logging.InnerLogger.Step | src/lib.rs:395-398 | the step count goes up by one and the answer is the wrapped condition's |
| Logging.InnerLogger.EnterDepth | src/lib.rs:400-403 | the recorded depth becomes `d` and the answer is the wrapped condition's |
| Logging.InnerLogger.Release | src/lib.rs:406-410 | dropping the `InnerLogger` stores the elapsed time as the logger's duration and changes nothing else |
| XorShift.SeedState | fuzz/fuzz_targets/to_completion.rs:33-44 | all four words equal the seed, 0 being replaced by `0xBAD5EED`, so the state is not all zero |
| XorShift.NextKeepsNonZero | fuzz/fuzz_targets/to_completion.rs:21-30 | a step of the generator never reaches the all-zero state from any other state |
| XorShift.MixOfZero | fuzz/fuzz_targets/to_completion.rs:23-28 | with `w = 0` the new word is 0 only when `x` is 0 |
| XorShift.XorShiftRng.FromSeed | fuzz/fuzz_targets/to_completion.rs:33-44 | `from_seed` builds the seeded state, which is not all zero |
| XorShift.XorShiftRng.NextU32 | fuzz/fuzz_targets/to_completion.rs:21-30 | the words move one place, the new `w` is `w ^ (w >> 19) ^ (t ^ (t >> 8))` with `t = x ^ (x << 11)`, it is returned, and the state stays non-zero |
| SyntheticTree.NewNode | fuzz/fuzz_targets/to_completion.rs:87-93 | `Node::new(p, f)` has player `p`, fitness `f` and no children |
| SyntheticTree.AsI8 | fuzz/fuzz_targets/to_completion.rs:109 | the `u8 as i8` cast keeps the value mod 256 and is negative exactly for bytes from `0x80` |
| SyntheticTree.Leaf | fuzz/fuzz_targets/to_completion.rs:109 | the node added for byte `i` is a leaf whose player is `i` even and whose fitness is `i` with the low bit flipped, as an `i8` |
| SyntheticTree.FromBeBytesOrder | fuzz/fuzz_targets/to_completion.rs:97 | the seed word is read most significant byte first: byte `k` of the input is bits `31 - 8k` down to `24 - 8k` |
| SyntheticTree.AppendAt | fuzz/fuzz_targets/to_completion.rs:109 | the push lands at the end of the children of the node the path leads to, which keeps its label and earlier children |
| SyntheticTree.AppendAtLabels | fuzz/fuzz_targets/to_completion.rs:109 | a push adds exactly the new leaf's label to the tree's labels |
| SyntheticTree.AppendAtExtends | fuzz/fuzz_targets/to_completion.rs:109 | a push keeps every existing node with its label and its children in order |
| SyntheticTree.ExtendsTransitive | fuzz/fuzz_targets/to_completion.rs:99-110 | growing by several pushes in a row still keeps every existing node |
| SyntheticTree.Choice | fuzz/fuzz_targets/to_completion.rs:101-106 | each draw picks a number in `0..=children.len()` |
| SyntheticTree.Descent | fuzz/fuzz_targets/to_completion.rs:100-107 | the walk follows a path that exists in the tree and ends at a node whose last draw equals its number of children |
| SyntheticTree.DescentMoves | fuzz/fuzz_targets/to_completion.rs:102-106 | when a draw names a child, the walk moves to that child and goes on drawing there |
| SyntheticTree.DescentStops | fuzz/fuzz_targets/to_completion.rs:102 | when a draw equals the number of children, the walk stops at that node |
| SyntheticTree.Descend | fuzz/fuzz_targets/to_completion.rs:100-107 | the in-place walk takes the path, and leaves the generator in the state, that `Descent` gives |
| SyntheticTree.GrowLabels | fuzz/fuzz_targets/to_completion.rs:99-110 | growing adds one node per byte, labelled from that byte, and nothing else |
| SyntheticTree.GrowExtends | fuzz/fuzz_targets/to_completion.rs:99-110 | growing keeps every node that was there, with its label and its children in order |
| SyntheticTree.TreeShape | fuzz/fuzz_targets/to_completion.rs:95-113 | the tree built from the bytes has root `Node::new(true, 0)` and `1 + (len - 4)` nodes, one labelled from each byte after the seed |
| SyntheticTree.FromBytes | fuzz/fuzz_targets/to_completion.rs:95-113 | `from_bytes` (at least 4 bytes) returns the tree `Tree` defines, with root `Node::new(true, 0)` and `1 + (len - 4)` nodes |
| SyntheticTree.Range | fuzz/fuzz_targets/to_completion.rs:72 | `lo..hi` lists `lo, lo + 1, ..., hi - 1` |
| SyntheticTree.NodeGame.Actions | fuzz/fuzz_targets/to_completion.rs:71-73 | the caller is to move if and only if it is the node's player, and the actions are the child indices in order |
| SyntheticTree.NodeGame.LookAhead | fuzz/fuzz_targets/to_completion.rs:81-83 | `Node`'s own `look_ahead` is the fitness of child `action`, read without moving; `Execute` proves it equal to what `execute` returns |
| SyntheticTree.NodeGame.Execute | fuzz/fuzz_targets/to_completion.rs:75-79 | the position becomes child `action` and its fitness is returned, which equals the node's own `look_ahead` |
| SyntheticTree.NodeGame.DefaultLookAhead | src/lib.rs:151-153 | the default `look_ahead` (execute on a clone) returns what `Node`'s `look_ahead` returns, without moving the position |

## Left out

- The wall clock: `Duration::into_run_condition` and `Instant` as a run condition are not modelled (src/lib.rs:240-246, 258-268). The `Instant` an `InnerLogger` takes at acquisition is not modelled either. The elapsed time its drop stores (src/lib.rs:406-410) is a parameter of `InnerLogger.Release` and `Released`. Rust runs the drop by itself at the end of the search; here the caller invokes `Release`.
- The alpha-beta `Bot`, the `brute` oracle and the `tree` module are not part of this model. Nor is the doc example that drives them (src/lib.rs:40-99, 296-309).
- The body of the `fuzz_target!` (fuzz/fuzz_targets/to_completion.rs:116-126) is left out. It only runs the search and the oracle and prints. `Debug` formatting (lines 55-63) and benches/chess.rs are plumbing over code that is not visible.
- `RunCondition` is a trait with arbitrary implementations. `Condition` covers only the three deterministic built-in conditions, and a `Logger` wrapping another `Logger` is not modelled.
- RunCondition.WrappingIncrement: debug builds panic on overflow in `self.0 += 1` and `self.0.steps += 1`. The model wraps, as release builds do. The sequence lemmas `StepsRun`, `StepsKthCall`, `StepsAllowsNMinusOne` and `StepsStayExhausted` assume no wrap-around.
- Logging.Logger.StepCount, Logging.Logger.LastDepth, Logging.Logger.Duration and Logging.Logger.IntoInner: the accessors return one field each, and have no contract beyond that.
- SyntheticTree.FromBytes: `from_bytes` panics on fewer than four bytes, because the slice `bytes[0..4]` is out of range. That case is a precondition here, matching the fuzz target's `len() >= 4` guard.
- SyntheticTree.Descend: `from_bytes` walks a chain of `&mut` borrows and pushes through the last one. The model follows a path of indices in a value tree and rebuilds that path, so aliasing of borrows does not arise.
- XorShift.NextKeepsNonZero: the xorshift step is a bijection on states, but that is not proved. The xor-shift inversion identities it needs are beyond what the solver handles here. The partner property proved instead is that the non-zero invariant is preserved.
- SyntheticTree.NodeGame.Execute, SyntheticTree.NodeGame.LookAhead: `execute` and `look_ahead` index `children[action]`, which panics when the index is out of range. That case is a precondition here; the search only plays actions from `actions`.
- SyntheticTree.NodeGame.DefaultLookAhead: the `Game` default is written once for all games. It is modelled only for `Node`, because the model has no traits.
