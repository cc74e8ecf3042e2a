# LaProp optimizer bookkeeping, modelled in Dafny

This project models the core of the `ForeachLaProp` optimizer of HeavyBall
(`heavyball/foreach_allaprop.py`) in two modules.

- `Schedulers` (`schedulers.dfy`) holds `linear_warmup_scheduler` as a pure
  function over the reals. It interpolates linearly from `alpha_start` to
  `alpha_end` while `step < warmup`, then clamps to `alpha_end` exactly. The
  division `step / warmup` happens only on the ramp. So the Python
  `ZeroDivisionError` is modelled as a `Failure` result, reachable only for a
  negative step with a warmup of zero.
- `LaProp` (`laprop.dfy`) holds the lifecycle of one `_step` call as a class
  `ForeachLaProp`. Its fields are:
  - the group's parameters;
  - its hyperparameters;
  - the step counter `k`;
  - the `train_mode` flag;
  - the per-parameter state table, a map keyed by parameter identity (`state_(p)`).

  Parameters are objects with a constant shape, mutable `data` and an optional
  gradient.

A step of `_step` goes through these phases in order:
1. It refuses eval mode.
2. It selects the active set: the parameters with a gradient, in group order.
3. It returns early when the active set is empty.
4. A loop lazily creates zeroed entries. The fast slot is left out when `beta1` is 0.
5. It runs the moment and parameter updates over the active set, as foreach
   operations: every result is computed first, then stored at once.
6. It advances `k` by one.

When `alpha_warmup` or `beta3_warmup` is set, the step raises. `_step` reads
the undefined name `state` there, after the lazy creation. The model returns
`Raised(StateUndefined)` with the created entries kept and `k` and all data
unchanged.

The tensor arithmetic is not evaluated. A buffer is a shape plus symbolic
contents. The contents record which operation produced them, from which
operands, and with which scalars:
- `exp_avg_sq_` and its returned denominator;
- `_foreach_mul_` followed by `_foreach_addcdiv_`;
- `update_param_`;
- `beta_debias(beta, step)`, `warmup(lr, step, warmup_steps)`, `1 - x` and `-x`.

The in-place operations replace contents only, so every buffer keeps its shape
by construction. This lets the model state, for each step:
- who changes;
- what shapes every buffer has;
- which moments the parameter update reads;
- which step number every step-dependent helper receives;
- that nothing outside the active set changes.

The specification functions are `ActiveOf`, `EnsureEntries`, `Updates`, `Stored`,
`DataOf` and `NewData`. The methods are proved against them, and the table
invariant (`Valid`, `EntryFits`) is proved preserved by every method.

Three behaviours of the code are modelled as written:
- A warmup length of 0 gives `alpha_end` for every step `>= 0`. Only a negative
  step reaches the division by zero
  (`heavyball/foreach_allaprop.py:8-9`).
- Setting `alpha_warmup` or `beta3_warmup` raises `NameError` at lines 67 and
  72, after the lazy creation (see above).
- `__init__` validates no hyperparameter (lines 30-34). The model's constructor
  requires only distinct parameters.

## Model

| member | source | states |
|---|---|---|
| Schedulers.LinearWarmup | heavyball/foreach_allaprop.py:7-11 | fails exactly when `step < warmup` and `warmup == 0`; returns `alpha_end` exactly whenever `step >= warmup` (no division); succeeds for every non-negative step |
| Schedulers.LinearWarmupMatchesReference | heavyball/foreach_allaprop.py:7-11 | for every positive warmup length, equals the reference `start + (end - start) * min(1, step / warmup)` on the ramp and after the clamp |
| Schedulers.LinearWarmupAtZero | heavyball/foreach_allaprop.py:8-10 | at step 0 the result is `alpha_start` |
| Schedulers.LinearWarmupBetween | heavyball/foreach_allaprop.py:8-10 | for `0 <= step < warmup` the result is `(1-a)*alpha_start + a*alpha_end` with `a = step/warmup` in `[0, 1)`, and lies between `alpha_start` and `alpha_end` |
| Schedulers.LinearWarmupMonotone | heavyball/foreach_allaprop.py:7-11 | with `alpha_start <= alpha_end`, the schedule never decreases as the step grows, through the clamp |
| LaProp.Parameter.constructor | heavyball/foreach_allaprop.py:48-63 | a parameter object has a fixed shape, the given data and, until the gradient engine sets one, no gradient; its identity is the key of the state table |
| LaProp.EntryFits | heavyball/foreach_allaprop.py:53-60 | the table invariant of one entry: the slow moment, second moment and (when present) fast moment have the parameter's shape, and the fast slot is present exactly when `beta1 != 0` |
| LaProp.ForeachLaProp.Valid | heavyball/foreach_allaprop.py:48-60 | the group holds each parameter once, and the table has entries only for the group's parameters, each satisfying `EntryFits`; every method keeps it |
| LaProp.FreshEntry | heavyball/foreach_allaprop.py:55-60 | a created entry fits the parameter's shape, all its buffers are zero, and the fast slot is present exactly when `beta1 != 0` |
| LaProp.ActiveOf | heavyball/foreach_allaprop.py:48 | the active set holds exactly the group's parameters that have a gradient, is no longer than the group, and has no duplicates when the group has none |
| LaProp.EnsureEntries | heavyball/foreach_allaprop.py:53-60 | after lazy creation, every active parameter has an entry; existing entries are kept unchanged; every new entry is a fresh zeroed entry; no other key appears |
| LaProp.EnsureEntriesSnoc | heavyball/foreach_allaprop.py:53-60 | one loop iteration: the next parameter gets a fresh entry exactly when it has none |
| LaProp.EnsureEntriesIdempotent | heavyball/foreach_allaprop.py:54 | running the lazy creation twice changes nothing the first run did not: nothing is re-initialised |
| LaProp.EnsureEntriesFit | heavyball/foreach_allaprop.py:53-60 | lazy creation keeps every entry fitting its parameter's shape and the `beta1` slot rule |
| LaProp.UpdateParameter | heavyball/foreach_allaprop.py:77-91 | one parameter's update keeps the shapes of all moment buffers and the presence of the fast slot |
| LaProp.UpdateParameterFits | heavyball/foreach_allaprop.py:77-86 | an entry that fits its parameter still fits after the moment updates |
| LaProp.UpdateUsesNewMoments | heavyball/foreach_allaprop.py:78-91 | `update_param_` receives the old data and the moments after their in-place updates; without a fast buffer it receives the gradient itself |
| LaProp.Moment | heavyball/foreach_allaprop.py:80-86 | the moment after `_foreach_mul_(acc, beta)` and then `_foreach_addcdiv_(acc, grad, denom, 1 - beta)`, both on the same accumulator; `MomentHasStep` states which step numbers it carries |
| LaProp.MomentHasStep | heavyball/foreach_allaprop.py:80-86 | a moment update mentions a step number exactly when its accumulator, gradient, denominator or coefficient does |
| LaProp.UpdateParameterSteps | heavyball/foreach_allaprop.py:77-86 | the only new step number in an updated entry is `step`: every debiasing receives `step` |
| LaProp.UpdatedDataSteps | heavyball/foreach_allaprop.py:77-91 | the only new step number in the updated data is `step`: the debiasings and the lr warmup all receive `step` |
| LaProp.DataOf | heavyball/foreach_allaprop.py:62-63 | the data of the active parameters, one per parameter, in order |
| LaProp.GradsOf | heavyball/foreach_allaprop.py:62-63 | the gradients of the active parameters, one per parameter, in order |
| LaProp.Updates | heavyball/foreach_allaprop.py:62-91 | one result per active parameter, each the update of that parameter from its own data, gradient and entry |
| LaProp.NewData | heavyball/foreach_allaprop.py:91 | the new data of every update, one per parameter, in order |
| LaProp.UpdatesFit | heavyball/foreach_allaprop.py:62-86 | every updated entry fits its parameter when the old entries did |
| LaProp.Stored | heavyball/foreach_allaprop.py:80-86 | storing the updates sets each active parameter's entry to its update, leaves every other entry unchanged and adds no other key |
| LaProp.StoredFits | heavyball/foreach_allaprop.py:80-86 | storing fitting updates keeps every entry of the table fitting its parameter |
| LaProp.StepTableFits | heavyball/foreach_allaprop.py:53-91 | after a completed step every active parameter has an entry whose slow and second-moment buffers (and fast buffer, when present) have the parameter's shape, and every entry of the table fits |
| LaProp.StepKeepsInactive | heavyball/foreach_allaprop.py:48-91 | a parameter outside the active set neither gains an entry nor has its entry changed |
| LaProp.ForeachLaProp.constructor | heavyball/foreach_allaprop.py:30-34 | a new optimizer has `k = 0`, is in train mode, has no state, and uses the given (by default the documented) hyperparameters |
| LaProp.ForeachLaProp.Step | heavyball/foreach_allaprop.py:36-93 | eval mode raises with nothing changed; an empty active set returns with nothing changed; a set warmup raises after the lazy creation with `k` and data unchanged; otherwise the step completes: `k` advances by exactly one, the table is the created table with each active entry replaced by its update (with the new `k` as the step) and each active parameter's data is its update; inactive parameters keep their data; the table invariant holds |
| LaProp.ForeachLaProp.StepActive | heavyball/foreach_allaprop.py:53-93 | from the lazy creation on: the outcome is the warmup error or a completed step, with the table, data and counter as in `Step` |
| LaProp.ForeachLaProp.CreateMissingState | heavyball/foreach_allaprop.py:53-60 | the creation loop leaves exactly the table `EnsureEntries` describes and keeps the table invariant |
| LaProp.ForeachLaProp.UpdateActive | heavyball/foreach_allaprop.py:62-91 | the table becomes the stored updates and each active parameter's data its new data; other parameters' data is unchanged; the invariant is kept |
| LaProp.ForeachLaProp.WriteData | heavyball/foreach_allaprop.py:91 | every active parameter's data becomes its update at once; no other parameter of the group changes |

## Left out

- `linear_hl_warmup_scheduler` (heavyball/foreach_allaprop.py:14-25) uses logarithms and powers, which the real-number model cannot express. Its only caller is the warmup branch that raises first.
- The numerics of `exp_avg_sq_`, `beta_debias`, `warmup` and `update_param_` are not modelled. They live in `heavyball/utils.py`, which is not part of this model. They are kept as symbolic contents that record their operands.
- Schedulers.LinearWarmup: idealised real arithmetic. Float rounding and the `float(warmup)` conversion are not modelled.
- The float32 dtype of the created buffers and `grad.float()` are not modelled. They change precision, not shape or bookkeeping.
- The `foreach` flag, devices and dtypes are not modelled. They choose an execution strategy without observable effect on the bookkeeping.
- The base class `StatefulOptimizer` and its `step()` over several groups are not part of this model. It also holds `weight_sum` and `lr_max`. The model covers one group, whose hyperparameters do not change between steps.
- `alpha` is computed on lines 66-69 but never used, so the model does not carry it forward.
- LaProp.ForeachLaProp.constructor: the group's parameters must be distinct. A parameter listed twice would be updated twice by the foreach operations; the model does not cover that case.
- LaProp.UpdateParameter: branches on the presence of the fast buffer rather than on `beta1 != 0.0`. The table invariant makes the two tests agree. Entries created under one `beta1` and used under another cannot arise, because the hyperparameters are fixed.
- The gradients are not stated unchanged in `Step`'s contract. The `modifies` clause already excludes them.
- `beta1, beta2, beta3_final = group["betas"]` (line 40) raises `ValueError` for a `betas` that does not have exactly three items. This happens even in eval mode, because line 40 runs before the mode check at line 45. The `Hyper` record always holds exactly three coefficients, so the model cannot express this failure.
- `update_param_` (line 91) also receives `exp_avg_slow` and `exp_avg_fast`, and its code is not part of this model. The model assumes it writes only the parameter data `y`, leaving the moment buffers as the foreach operations left them. `Step`'s table result (`state == Stored(created, active, planned)`) holds only under that assumption. The comment "Normalize grad in-place" at line 89 hints at a further in-place effect, which is not modelled.
- The benchmark harness (`benchmark/xor_sequence.py`) is an ML workload and I/O glue outside the optimizer's core.
