/** The bookkeeping of the `ForeachLaProp` optimizer: a per-parameter state table keyed
    by parameter identity, the group's train/eval flag and its step counter `k`.

    A tensor is a buffer carrying a shape and abstract contents. The tensor arithmetic a
    step performs (the moment updates, the debiasing of the decay coefficients, the
    learning-rate warmup and the parameter update) is not evaluated: the contents of a
    buffer record which operation produced them and from which operands and scalars. The
    in-place operations replace a buffer's contents only, so a buffer keeps its shape by
    construction. */
module LaProp {

  datatype Option<T> = None | Some(value: T)

  /** The extent of every dimension of a tensor; `[]` is a scalar. */
  type Shape = seq<nat>

  /** A scalar handed to the tensor operations: a hyperparameter, or the unevaluated result
      of `beta_debias(beta, step)`, of `warmup(lr, step, warmup_steps)`, of `1 - x` or of
      `-x`. */
  datatype Scalar =
    | Const(c: real)
    | BetaDebias(beta: real, step: int)
    | Warmup(lr: real, step: int, warmupSteps: int)
    | OneMinus(x: Scalar)
    | Neg(x: Scalar)

  /** The contents of a tensor: values that came from outside the optimizer, or the
      unevaluated result of one operation of the step. */
  datatype Contents =
    | Given(values: seq<real>)
    | Zeros                                                            // `torch.zeros_like`
    | ExpAvgSq(acc: Contents, grad: Contents, beta: Scalar, eps: real)   // accumulator after `exp_avg_sq_`
    | Denom(acc: Contents, grad: Contents, beta: Scalar, eps: real)      // denominator `exp_avg_sq_` returns
    | Mul(x: Contents, scalar: Scalar)                                 // `torch._foreach_mul_`
    | Addcdiv(x: Contents, num: Contents, den: Contents, value: Scalar)  // `torch._foreach_addcdiv_`
    | UpdateParam(y: Contents, slow: Contents, fast: Contents, lr: Scalar, decay: real)  // `update_param_`

  datatype Buffer = Buffer(shape: Shape, contents: Contents)

  /** The hyperparameters of a parameter group (the `betas` triple is split in three). */
  datatype Hyper = Hyper(
    lr: real,
    beta1: real,
    beta2: real,
    beta3: real,
    alpha: real,
    eps: real,
    beta3Warmup: Option<real>,
    alphaWarmup: Option<real>,
    weightDecay: real,
    warmupSteps: int)

  /** The defaults of `ForeachLaProp.__init__`. */
  const DefaultHyper := Hyper(0.0025, 0.9, 0.999, 0.999, 2.0, 0.00000001, None, None, 0.0, 1)

  /** The state entry of one parameter: the fast first moment (absent when `beta1` is 0),
      the slow first moment and the second moment. */
  datatype Entry = Entry(expAvgFast: Option<Buffer>, expAvgSlow: Buffer, expAvgSq: Buffer)

  /** The table invariant of one entry: every buffer has the parameter's shape, and the
      fast slot is present exactly when `beta1` is not zero. */
  predicate EntryFits(e: Entry, shape: Shape, beta1: real)
  {
    && e.expAvgSlow.shape == shape
    && e.expAvgSq.shape == shape
    && (e.expAvgFast.Some? <==> beta1 != 0.0)
    && (e.expAvgFast.Some? ==> e.expAvgFast.value.shape == shape)
  }

  /** The entry created on a parameter's first active step: zeroed buffers shaped like the
      parameter, and no fast buffer when `beta1` is 0, to save memory. */
  function FreshEntry(shape: Shape, beta1: real): (e: Entry)
    ensures EntryFits(e, shape, beta1)
    ensures e.expAvgSlow.contents == Zeros && e.expAvgSq.contents == Zeros
    ensures e.expAvgFast.Some? ==> e.expAvgFast.value.contents == Zeros
  {
    // each buffer is `torch.zeros_like(p.data, dtype=torch.float32)`
    var zeros := Buffer(shape, Zeros);
    Entry(if beta1 != 0.0 then Some(zeros) else None, zeros, zeros)
  }

  predicate Distinct<T(==)>(s: seq<T>)
  {
    forall i, j :: 0 <= i < j < |s| ==> s[i] != s[j]
  }

  /** A model parameter: its constant shape, its data and, when the gradient engine
      produced one, its gradient, both of that shape. The parameter object's identity is
      the key of the optimizer's state table. */
  class Parameter {
    const shape: Shape
    var data: Contents
    var grad: Option<Contents>

    constructor (shape: Shape, data: Contents)
      ensures this.shape == shape && this.data == data && grad == None
    {
      this.shape := shape;
      this.data := data;
      grad := None;
    }
  }

  /** The active set: the parameters of the group that have a gradient, in group order. */
  function ActiveOf(ps: seq<Parameter>): (r: seq<Parameter>)
    reads ps`grad
    ensures forall p :: p in r ==> p in ps && p.grad.Some?
    ensures forall p :: p in ps && p.grad.Some? ==> p in r
    ensures |r| <= |ps|
    ensures Distinct(ps) ==> Distinct(r)
  {
    if ps == [] then []
    else
      var rest := ActiveOf(ps[1..]);
      if ps[0].grad.Some? then
        assert Distinct(ps) ==> ps[0] !in ps[1..];
        [ps[0]] + rest
      else rest
  }

  /** The state table after the lazy creation over `ps`: a parameter that already has an
      entry keeps it, and every other parameter of `ps` gets a fresh entry. */
  function EnsureEntries(st: map<Parameter, Entry>, ps: seq<Parameter>, beta1: real): (r: map<Parameter, Entry>)
    ensures forall p :: p in r ==> p in st || p in ps
    ensures forall p :: p in ps ==> p in r
    ensures forall p :: p in st ==> p in r && r[p] == st[p]
    ensures forall p :: p in r && p !in st ==> r[p] == FreshEntry(p.shape, beta1)
  {
    if ps == [] then st
    else
      var before := EnsureEntries(st, ps[..|ps| - 1], beta1);
      var p := ps[|ps| - 1];
      assert forall q :: q in ps ==> q in ps[..|ps| - 1] || q == p;
      assert forall q :: q in ps[..|ps| - 1] ==> q in ps;
      if p in before then before else before[p := FreshEntry(p.shape, beta1)]
  }

  /** Lazy creation over one more parameter: it gets a fresh entry unless it has one. */
  lemma EnsureEntriesSnoc(st: map<Parameter, Entry>, ps: seq<Parameter>, i: nat, beta1: real)
    requires i < |ps|
    ensures var before := EnsureEntries(st, ps[..i], beta1);
      EnsureEntries(st, ps[..i + 1], beta1) ==
        if ps[i] in before then before else before[ps[i] := FreshEntry(ps[i].shape, beta1)]
  {
    assert ps[..i + 1][..i] == ps[..i];
  }

  /** Lazy creation is idempotent: running it a second time over the same parameters
      re-initialises nothing. */
  lemma EnsureEntriesIdempotent(st: map<Parameter, Entry>, ps: seq<Parameter>, beta1: real)
    ensures EnsureEntries(EnsureEntries(st, ps, beta1), ps, beta1) == EnsureEntries(st, ps, beta1)
  {
    var once := EnsureEntries(st, ps, beta1);
    var twice := EnsureEntries(once, ps, beta1);
    assert twice.Keys == once.Keys;
  }

  /** Lazy creation keeps the table invariant: entries that fitted their parameter still
      do, and every created entry fits its parameter. */
  lemma EnsureEntriesFit(st: map<Parameter, Entry>, ps: seq<Parameter>, beta1: real)
    requires forall p :: p in st ==> EntryFits(st[p], p.shape, beta1)
    ensures forall p :: p in EnsureEntries(st, ps, beta1) ==> EntryFits(EnsureEntries(st, ps, beta1)[p], p.shape, beta1)
  {
  }

  /** `_foreach_mul_` followed by `_foreach_addcdiv_`: `acc * beta + (1 - beta) * grad / denom`. */
  function Moment(acc: Contents, grad: Contents, denom: Contents, beta: Scalar): (m: Contents)
  {
    Addcdiv(Mul(acc, beta), grad, denom, OneMinus(beta))
  }

  /** The moment and parameter arithmetic of one step for one active parameter, in the
      order of `_step`: the second moment and the denominator, the fast moment (or the
      gradient itself when there is no fast buffer), the slow moment, then the parameter
      update with the negated warmed-up learning rate. `step` is the value handed to every
      step-dependent helper. The result is the new data and the new entry. In a table
      entry the fast buffer is present exactly when `beta1` is not 0 (`EntryFits`), so the
      test on the buffer is `_step`'s test `beta1 != 0.0`. */
  function UpdateParameter(h: Hyper, step: int, y: Contents, grad: Contents, e: Entry): (r: (Contents, Entry))
    ensures r.1.expAvgSlow.shape == e.expAvgSlow.shape && r.1.expAvgSq.shape == e.expAvgSq.shape
    ensures r.1.expAvgFast.Some? == e.expAvgFast.Some?
    ensures r.1.expAvgFast.Some? ==> r.1.expAvgFast.value.shape == e.expAvgFast.value.shape
  {
    var beta2 := BetaDebias(h.beta2, step);
    var denom := Denom(e.expAvgSq.contents, grad, beta2, h.eps);
    var fast :=
      if e.expAvgFast.Some? then Moment(e.expAvgFast.value.contents, grad, denom, BetaDebias(h.beta1, step))
      else grad;
    var slow := Moment(e.expAvgSlow.contents, grad, denom, BetaDebias(h.beta3, step));
    var lr := Neg(Warmup(h.lr, step, h.warmupSteps));
    var newFast := if e.expAvgFast.Some? then Some(Buffer(e.expAvgFast.value.shape, fast)) else None;
    (UpdateParam(y, slow, fast, lr, h.weightDecay),
     Entry(newFast, Buffer(e.expAvgSlow.shape, slow), Buffer(e.expAvgSq.shape, ExpAvgSq(e.expAvgSq.contents, grad, beta2, h.eps))))
  }

  /** An update keeps an entry that fits its parameter fitting. */
  lemma UpdateParameterFits(h: Hyper, step: int, y: Contents, grad: Contents, e: Entry, shape: Shape)
    requires EntryFits(e, shape, h.beta1)
    ensures EntryFits(UpdateParameter(h, step, y, grad, e).1, shape, h.beta1)
  {
  }

  /** The data of every parameter of `ps`, in order. */
  function DataOf(ps: seq<Parameter>): (r: seq<Contents>)
    reads ps
    ensures |r| == |ps| && forall j :: 0 <= j < |ps| ==> r[j] == ps[j].data
  {
    if ps == [] then [] else [ps[0].data] + DataOf(ps[1..])
  }

  /** The gradient of every parameter of `ps`, in order; each must have one. */
  function GradsOf(ps: seq<Parameter>): (r: seq<Contents>)
    reads ps
    requires forall p :: p in ps ==> p.grad.Some?
    ensures |r| == |ps| && forall j :: 0 <= j < |ps| ==> r[j] == ps[j].grad.value
  {
    if ps == [] then [] else [ps[0].grad.value] + GradsOf(ps[1..])
  }

  /** The result of the moment and parameter arithmetic, with `step`, for every parameter
      `ps[j]` in order, from its data `ys[j]`, its gradient `gs[j]` and its entry in `st`. */
  function Updates(h: Hyper, step: int, ps: seq<Parameter>, ys: seq<Contents>, gs: seq<Contents>, st: map<Parameter, Entry>): (r: seq<(Contents, Entry)>)
    requires |ys| == |ps| && |gs| == |ps|
    requires forall p :: p in ps ==> p in st
    ensures |r| == |ps|
    ensures forall j :: 0 <= j < |ps| ==> r[j] == UpdateParameter(h, step, ys[j], gs[j], st[ps[j]])
  {
    if ps == [] then []
    else [UpdateParameter(h, step, ys[0], gs[0], st[ps[0]])] + Updates(h, step, ps[1..], ys[1..], gs[1..], st)
  }

  /** The new data of every update, in order. */
  function NewData(updated: seq<(Contents, Entry)>): (r: seq<Contents>)
    ensures |r| == |updated| && forall j :: 0 <= j < |updated| ==> r[j] == updated[j].0
  {
    if updated == [] then [] else [updated[0].0] + NewData(updated[1..])
  }

  /** The updated entries of parameters whose entries fit them fit them too. */
  lemma UpdatesFit(h: Hyper, step: int, ps: seq<Parameter>, ys: seq<Contents>, gs: seq<Contents>, st: map<Parameter, Entry>)
    requires |ys| == |ps| && |gs| == |ps|
    requires forall p :: p in ps ==> p in st && EntryFits(st[p], p.shape, h.beta1)
    ensures forall j :: 0 <= j < |ps| ==> EntryFits(Updates(h, step, ps, ys, gs, st)[j].1, ps[j].shape, h.beta1)
  {
    var r := Updates(h, step, ps, ys, gs, st);
    forall j | 0 <= j < |ps|
      ensures EntryFits(r[j].1, ps[j].shape, h.beta1)
    {
      UpdateParameterFits(h, step, ys[j], gs[j], st[ps[j]], ps[j].shape);
    }
  }

  /** The table after storing `updated[j].1` as the entry of `ps[j]`, for every `j`. */
  function Stored(st: map<Parameter, Entry>, ps: seq<Parameter>, updated: seq<(Contents, Entry)>): (r: map<Parameter, Entry>)
    requires Distinct(ps) && |updated| == |ps|
    ensures forall p :: p in r ==> p in st || p in ps
    ensures forall p :: p in st ==> p in r
    ensures forall j :: 0 <= j < |ps| ==> ps[j] in r && r[ps[j]] == updated[j].1
    ensures forall p :: p in st && p !in ps ==> r[p] == st[p]
    decreases ps
  {
    if ps == [] then st
    else
      var rest := Stored(st[ps[0] := updated[0].1], ps[1..], updated[1..]);
      assert forall q :: q in ps ==> q == ps[0] || q in ps[1..];
      assert forall j :: 1 <= j < |ps| ==> ps[j] == ps[1..][j - 1] && ps[j] != ps[0];
      rest
  }

  /** Storing updated entries that fit their parameters keeps a table whose entries fit
      theirs. */
  lemma StoredFits(st: map<Parameter, Entry>, ps: seq<Parameter>, updated: seq<(Contents, Entry)>, beta1: real)
    requires Distinct(ps) && |updated| == |ps|
    requires forall p :: p in st ==> EntryFits(st[p], p.shape, beta1)
    requires forall j :: 0 <= j < |ps| ==> EntryFits(updated[j].1, ps[j].shape, beta1)
    ensures forall p :: p in Stored(st, ps, updated) ==> EntryFits(Stored(st, ps, updated)[p], p.shape, beta1)
  {
    var r := Stored(st, ps, updated);
    forall p | p in r
      ensures EntryFits(r[p], p.shape, beta1)
    {
      if p in ps {
        var j :| 0 <= j < |ps| && ps[j] == p;
        assert r[p] == updated[j].1;
      }
    }
  }

  /** After a completed step every active parameter has an entry, and every entry of the
      table, whether created, updated or left alone, fits its parameter. */
  lemma StepTableFits(h: Hyper, step: int, st: map<Parameter, Entry>, active: seq<Parameter>, ys: seq<Contents>, gs: seq<Contents>)
    requires Distinct(active) && |ys| == |active| && |gs| == |active|
    requires forall p :: p in st ==> EntryFits(st[p], p.shape, h.beta1)
    ensures var created := EnsureEntries(st, active, h.beta1);
      var r := Stored(created, active, Updates(h, step, active, ys, gs, created));
      && (forall p :: p in active ==> p in r)
      && (forall p :: p in r ==> EntryFits(r[p], p.shape, h.beta1))
  {
    var created := EnsureEntries(st, active, h.beta1);
    EnsureEntriesFit(st, active, h.beta1);
    UpdatesFit(h, step, active, ys, gs, created);
    StoredFits(created, active, Updates(h, step, active, ys, gs, created), h.beta1);
  }

  /** A parameter outside the active set is neither given an entry nor has its entry
      changed by a step. */
  lemma StepKeepsInactive(h: Hyper, step: int, st: map<Parameter, Entry>, active: seq<Parameter>, ys: seq<Contents>, gs: seq<Contents>, p: Parameter)
    requires Distinct(active) && |ys| == |active| && |gs| == |active|
    requires p !in active
    ensures var created := EnsureEntries(st, active, h.beta1);
      var r := Stored(created, active, Updates(h, step, active, ys, gs, created));
      && (p in r <==> p in st)
      && (p in st ==> r[p] == st[p])
  {
  }

  /** `update_param_` reads the moments after their in-place updates: the slow moment it
      uses is the stored slow moment, and the fast one is the stored fast moment or, with
      no fast buffer, the gradient itself. */
  lemma UpdateUsesNewMoments(h: Hyper, step: int, y: Contents, grad: Contents, e: Entry)
    ensures var r := UpdateParameter(h, step, y, grad, e);
      && r.0.UpdateParam? && r.0.y == y
      && r.0.slow == r.1.expAvgSlow.contents
      && r.0.fast == if e.expAvgFast.Some? then r.1.expAvgFast.value.contents else grad
  {
  }

  /** Whether the step number `n` is handed to a step-dependent helper inside a scalar or
      inside contents. */
  predicate ScalarHasStep(s: Scalar, n: int)
  {
    match s
    case Const(_) => false
    case BetaDebias(_, m) => m == n
    case Warmup(_, m, _) => m == n
    case OneMinus(x) => ScalarHasStep(x, n)
    case Neg(x) => ScalarHasStep(x, n)
  }

  predicate HasStep(c: Contents, n: int)
  {
    match c
    case Given(_) => false
    case Zeros => false
    case ExpAvgSq(acc, grad, beta, _) => HasStep(acc, n) || HasStep(grad, n) || ScalarHasStep(beta, n)
    case Denom(acc, grad, beta, _) => HasStep(acc, n) || HasStep(grad, n) || ScalarHasStep(beta, n)
    case Mul(x, scalar) => HasStep(x, n) || ScalarHasStep(scalar, n)
    case Addcdiv(x, num, den, value) => HasStep(x, n) || HasStep(num, n) || HasStep(den, n) || ScalarHasStep(value, n)
    case UpdateParam(y, slow, fast, lr, _) => HasStep(y, n) || HasStep(slow, n) || HasStep(fast, n) || ScalarHasStep(lr, n)
  }

  predicate EntryHasStep(e: Entry, n: int)
  {
    || (e.expAvgFast.Some? && HasStep(e.expAvgFast.value.contents, n))
    || HasStep(e.expAvgSlow.contents, n)
    || HasStep(e.expAvgSq.contents, n)
  }

  /** Every step-dependent helper of one update (the three debiasings and the warmup of the
      learning rate) is handed `step` and no other number: a step number occurs in the new
      entry exactly when it is `step` or occurs in the gradient or the old entry. */
  lemma UpdateParameterSteps(h: Hyper, step: int, y: Contents, grad: Contents, e: Entry, n: int)
    ensures EntryHasStep(UpdateParameter(h, step, y, grad, e).1, n) <==>
      n == step || HasStep(grad, n) || EntryHasStep(e, n)
  {
    var r := UpdateParameter(h, step, y, grad, e);
    var denom := Denom(e.expAvgSq.contents, grad, BetaDebias(h.beta2, step), h.eps);
    assert HasStep(denom, n) <==> HasStep(e.expAvgSq.contents, n) || HasStep(grad, n) || n == step;
    assert HasStep(r.1.expAvgSq.contents, n) <==> HasStep(denom, n);
    MomentHasStep(e.expAvgSlow.contents, grad, denom, BetaDebias(h.beta3, step), n);
    if e.expAvgFast.Some? {
      MomentHasStep(e.expAvgFast.value.contents, grad, denom, BetaDebias(h.beta1, step), n);
    }
  }

  lemma MomentHasStep(acc: Contents, grad: Contents, denom: Contents, beta: Scalar, n: int)
    ensures HasStep(Moment(acc, grad, denom, beta), n) <==>
      HasStep(acc, n) || HasStep(grad, n) || HasStep(denom, n) || ScalarHasStep(beta, n)
  {
    assert HasStep(Mul(acc, beta), n) <==> HasStep(acc, n) || ScalarHasStep(beta, n);
    assert ScalarHasStep(OneMinus(beta), n) <==> ScalarHasStep(beta, n);
  }

  /** The same for the new data: a step number occurs in it exactly when it is `step` or
      occurs in the old data, the gradient or the old entry. */
  lemma UpdatedDataSteps(h: Hyper, step: int, y: Contents, grad: Contents, e: Entry, n: int)
    ensures HasStep(UpdateParameter(h, step, y, grad, e).0, n) <==>
      n == step || HasStep(y, n) || HasStep(grad, n) || EntryHasStep(e, n)
  {
    var r := UpdateParameter(h, step, y, grad, e);
    var denom := Denom(e.expAvgSq.contents, grad, BetaDebias(h.beta2, step), h.eps);
    assert HasStep(denom, n) <==> HasStep(e.expAvgSq.contents, n) || HasStep(grad, n) || n == step;
    MomentHasStep(e.expAvgSlow.contents, grad, denom, BetaDebias(h.beta3, step), n);
    if e.expAvgFast.Some? {
      MomentHasStep(e.expAvgFast.value.contents, grad, denom, BetaDebias(h.beta1, step), n);
    }
    assert ScalarHasStep(r.0.lr, n) <==> n == step;
  }

  datatype StepError =
    | NotInTrainMode   // `Exception("Not in train mode!")`
    | StateUndefined   // the warmup branches read the undefined name `state`

  /** How a call of `_step` ends: a completed step, an early return on an empty active
      set, or an exception. */
  datatype StepOutcome = Stepped | Skipped | Raised(error: StepError)

  /** `ForeachLaProp` with one parameter group. */
  class ForeachLaProp {
    const params: seq<Parameter>
    const hyper: Hyper
    var k: nat
    var trainMode: bool
    var state: map<Parameter, Entry>

    /** The group holds each parameter once, and the state
        table has entries only for the group's parameters, each fitting its parameter. */
    ghost predicate Valid()
      reads this
    {
      && Distinct(params)
      && (forall p {:trigger p in state} :: p in state ==> p in params && EntryFits(state[p], p.shape, hyper.beta1))
    }

    /** A new optimizer over `params`: `k = 0`, train mode, and no state yet. */
    constructor (params: seq<Parameter>, hyper: Hyper := DefaultHyper)
      requires Distinct(params)
      ensures Valid()
      ensures this.params == params && this.hyper == hyper
      ensures k == 0 && trainMode && state == map[]
    {
      this.params := params;
      this.hyper := hyper;
      k := 0;
      trainMode := true;
      state := map[];
    }

    /** `_step(group)`. On a completed step the table is the lazily created table with the
        entry of every active parameter replaced by its update, and the data of every active
        parameter is its update; the updates are those of `Updates` over the active set, with
        the new counter `k` (the old one plus one) as the step, from the data, gradients and
        lazily created entries before the call. */
    method Step() returns (r: StepOutcome)
      requires Valid()
      modifies this`k, this`state, params`data
      ensures Valid()
      ensures r == Raised(NotInTrainMode) <==> !old(trainMode)
      ensures r == Skipped <==> old(trainMode) && old(ActiveOf(params)) == []
      ensures r == Raised(StateUndefined) <==>
        old(trainMode) && old(ActiveOf(params)) != [] && (hyper.alphaWarmup.Some? || hyper.beta3Warmup.Some?)
      ensures r == Stepped <==>
        old(trainMode) && old(ActiveOf(params)) != [] && hyper.alphaWarmup.None? && hyper.beta3Warmup.None?
      // only a completed step advances the counter, by exactly one
      ensures k == if r == Stepped then old(k) + 1 else old(k)
      // nothing is created on the error and no-op paths, and no data changes unless the step completes
      ensures r == Raised(NotInTrainMode) || r == Skipped ==> state == old(state)
      ensures r != Stepped ==> forall p :: p in params ==> p.data == old(p.data)
      // the undefined-name failure happens after the lazy creation
      ensures r == Raised(StateUndefined) ==> state == EnsureEntries(old(state), old(ActiveOf(params)), hyper.beta1)
      // a completed step updates each active parameter once, from its lazily created entry
      ensures r == Stepped ==>
        var active := old(ActiveOf(params));
        var created := EnsureEntries(old(state), active, hyper.beta1);
        var planned := Updates(hyper, k, active, old(DataOf(active)), old(GradsOf(active)), created);
        state == Stored(created, active, planned) && DataOf(active) == NewData(planned)
      // parameters outside the active set (those without a gradient) keep their data
      ensures forall p :: p in params && p !in old(ActiveOf(params)) ==> p.data == old(p.data)
    {
      if !trainMode {
        return Raised(NotInTrainMode);
      }
      var active := ActiveOf(params);
      if active == [] {
        return Skipped;
      }
      r := StepActive(active);
    }

    /** `_step(group)` from the lazy creation on, over an active set `active`. */
    method StepActive(active: seq<Parameter>) returns (r: StepOutcome)
      requires Valid() && Distinct(active)
      requires forall p :: p in active ==> p in params && p.grad.Some?
      modifies this`k, this`state, params`data
      ensures Valid()
      ensures r == if hyper.alphaWarmup.Some? || hyper.beta3Warmup.Some? then Raised(StateUndefined) else Stepped
      ensures k == if r == Stepped then old(k) + 1 else old(k)
      ensures r != Stepped ==> forall p :: p in params ==> p.data == old(p.data)
      ensures r != Stepped ==> state == EnsureEntries(old(state), active, hyper.beta1)
      ensures r == Stepped ==>
        var created := EnsureEntries(old(state), active, hyper.beta1);
        var planned := Updates(hyper, k, active, old(DataOf(active)), old(GradsOf(active)), created);
        state == Stored(created, active, planned) && DataOf(active) == NewData(planned)
      ensures forall p :: p in params && p !in active ==> p.data == old(p.data)
    {
      var ys := DataOf(active);
      var gs := GradsOf(active);
      CreateMissingState(active);
      if hyper.alphaWarmup.Some? || hyper.beta3Warmup.Some? {
        return Raised(StateUndefined);
      }
      k := k + 1;
      UpdateActive(active, ys, gs, k);
      return Stepped;
    }

    /** The lazy creation loop: every active parameter without an entry gets a fresh one. */
    method CreateMissingState(active: seq<Parameter>)
      requires Valid()
      requires forall p :: p in active ==> p in params
      modifies this`state
      ensures Valid()
      ensures state == EnsureEntries(old(state), active, hyper.beta1)
    {
      var i := 0;
      while i < |active|
        invariant 0 <= i <= |active|
        invariant state == EnsureEntries(old(state), active[..i], hyper.beta1)
        invariant Valid()
      {
        var p := active[i];
        EnsureEntriesSnoc(old(state), active, i, hyper.beta1);
        if p !in state {
          state := state[p := FreshEntry(p.shape, hyper.beta1)];
        }
        i := i + 1;
      }
      assert active[..|active|] == active;
    }

    /** The moment and parameter updates over the active set, with `step` as the step,
        from the data `ys` and gradients `gs` read from the active parameters: every result
        is computed first and then stored at once, as `torch._foreach_mul_`,
        `torch._foreach_addcdiv_` and `update_param_` update every tensor of the list. */
    method UpdateActive(active: seq<Parameter>, ys: seq<Contents>, gs: seq<Contents>, step: int)
      requires Valid()
      requires Distinct(active) && |ys| == |active| && |gs| == |active|
      requires forall p :: p in active ==> p in params && p in state
      modifies this`state, params`data
      ensures Valid()
      ensures state == Stored(old(state), active, Updates(hyper, step, active, ys, gs, old(state)))
      ensures DataOf(active) == NewData(Updates(hyper, step, active, ys, gs, old(state)))
      ensures forall p :: p in params && p !in active ==> p.data == old(p.data)
    {
      var updated := Updates(hyper, step, active, ys, gs, state);
      UpdatesFit(hyper, step, active, ys, gs, state);
      StoredFits(state, active, updated, hyper.beta1);
      state := Stored(state, active, updated);
      WriteData(active, updated);
    }

    /** `update_param_` over the active set: every active parameter's data becomes its
        updated data at once, and no other parameter of the group changes. */
    method WriteData(active: seq<Parameter>, updated: seq<(Contents, Entry)>)
      requires Distinct(active) && |updated| == |active|
      requires forall p :: p in active ==> p in params
      modifies params`data
      ensures DataOf(active) == NewData(updated)
      ensures forall p :: p in params && p !in active ==> p.data == old(p.data)
    {
      assert forall j :: 0 <= j < |active| ==> active[j] in params;
      forall j | 0 <= j < |active| {
        active[j].data := updated[j].0;
      }
      assert forall j :: 0 <= j < |active| ==> DataOf(active)[j] == NewData(updated)[j];
    }
  }
}
