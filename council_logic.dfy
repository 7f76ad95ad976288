/**
  * The council-logic reducers (pylixir/council/logic.py). Each reducer takes a
  * game state, the target slot indices and one draw in [0, 10000), and returns
  * a new state built on a deep copy; the state it is given is never changed
  * (none of the methods below has a `modifies` clause).
  */
module CouncilLogic {
  import opened Wrappers
  import opened Seqs
  import opened Base

  /** Raised by the single-target reducers when not given exactly one target. */
  datatype CouncilError = TargetSizeMismatch

  /** The configuration every council logic carries. */
  datatype ElixirLogic = ElixirLogic(value: (int, int), ratio: int, remainTurn: int)

  /** One mutation of kind `target` per target slot, in target order. */
  function TimedMutations(target: MutationTarget, targets: seq<int>, value: int, remainTurn: int): (ms: seq<Mutation>)
    ensures |ms| == |targets|
    ensures forall k :: 0 <= k < |targets| ==> ms[k] == Mutation(target, targets[k], value, remainTurn)
  {
    if targets == [] then []
    else [Mutation(target, targets[0], value, remainTurn)] + TimedMutations(target, targets[1..], value, remainTurn)
  }

  /**
    * MutateProb: appends one `Prob` mutation per target, in target order,
    * each with the logic's first value and its remaining turns; the prior
    * mutations, the slots and the counters stay as they were.
    */
  method MutateProb(logic: ElixirLogic, state: GameState, targets: seq<int>, draw: real) returns (next: GameState)
    requires state.Valid()
    ensures fresh(next.Repr()) && next.Valid()
    ensures next.View() == state.View().(mutations :=
      state.mutations + TimedMutations(Prob, targets, logic.value.0, logic.remainTurn))
  {
    next := state.DeepCopy();
    var mutations := TimedMutations(Prob, targets, logic.value.0, logic.remainTurn);
    next.mutations := next.mutations + mutations;
  }

  /** MutateLuckyRatio: as MutateProb, with mutations of kind `LuckyRatio`. */
  method MutateLuckyRatio(logic: ElixirLogic, state: GameState, targets: seq<int>, draw: real) returns (next: GameState)
    requires state.Valid()
    ensures fresh(next.Repr()) && next.Valid()
    ensures next.View() == state.View().(mutations :=
      state.mutations + TimedMutations(LuckyRatio, targets, logic.value.0, logic.remainTurn))
  {
    next := state.DeepCopy();
    var mutations := TimedMutations(LuckyRatio, targets, logic.value.0, logic.remainTurn);
    next.mutations := next.mutations + mutations;
  }

  /**
    * The state IncreaseTargetWithRatio produces: an arity error unless there is
    * exactly one target; otherwise, when the draw does not exceed the ratio
    * (the boundary succeeds), the target moves by the first value with
    * saturation, and when it exceeds the ratio nothing changes.
    */
  function IncreaseTargetWithRatioSpec(logic: ElixirLogic, s: Snapshot, targets: seq<int>, draw: real): (r: Result<Snapshot, CouncilError>)
    requires |targets| == 1 && draw <= logic.ratio as real ==> 0 <= targets[0] < |s.effects|
    ensures r.Failure? <==> |targets| != 1
    ensures r.Failure? ==> r.error == TargetSizeMismatch
    ensures r.Success? && draw <= logic.ratio as real ==> r.value == s.ModifyEffectCount(targets[0], logic.value.0)
    ensures r.Success? && draw > logic.ratio as real ==> r.value == s
  {
    if |targets| != 1 then Failure(TargetSizeMismatch)
    else if draw <= logic.ratio as real then Success(s.ModifyEffectCount(targets[0], logic.value.0))
    else Success(s)
  }

  /** IncreaseTargetWithRatio: a probability-gated saturating increment of one slot. */
  method IncreaseTargetWithRatio(logic: ElixirLogic, state: GameState, targets: seq<int>, draw: real)
    returns (r: Result<GameState, CouncilError>)
    requires state.Valid()
    requires |targets| == 1 && draw <= logic.ratio as real ==> 0 <= targets[0] < |state.effects|
    ensures r.Failure? ==> IncreaseTargetWithRatioSpec(logic, state.View(), targets, draw) == Failure(r.error)
    ensures r.Success? ==> fresh(r.value.Repr()) && r.value.Valid()
    ensures r.Success? ==> IncreaseTargetWithRatioSpec(logic, state.View(), targets, draw) == Success(r.value.View())
  {
    if |targets| != 1 {
      return Failure(TargetSizeMismatch);
    }
    var target := targets[0];
    var next := state.DeepCopy();
    if draw <= logic.ratio as real {
      next.ModifyEffectCount(target, logic.value.0);
    }
    return Success(next);
  }

  /**
    * The state IncreaseTargetRanged produces: an arity error unless there is
    * exactly one target; otherwise the target always moves, with saturation,
    * by the draw mapped onto [value.0, value.1].
    */
  function IncreaseTargetRangedSpec(logic: ElixirLogic, s: Snapshot, targets: seq<int>, draw: real): (r: Result<Snapshot, CouncilError>)
    requires |targets| == 1 ==> 0 <= targets[0] < |s.effects|
    ensures r.Failure? <==> |targets| != 1
    ensures r.Failure? ==> r.error == TargetSizeMismatch
    ensures r.Success? ==> r.value == s.ModifyEffectCount(targets[0], Rng.Ranged(logic.value.0, logic.value.1, draw))
  {
    if |targets| != 1 then Failure(TargetSizeMismatch)
    else
      var (diffMin, diffMax) := logic.value;
      Success(s.ModifyEffectCount(targets[0], Rng.Ranged(diffMin, diffMax, draw)))
  }

  /** IncreaseTargetRanged: moves one slot by a draw-determined amount. */
  method IncreaseTargetRanged(logic: ElixirLogic, state: GameState, targets: seq<int>, draw: real)
    returns (r: Result<GameState, CouncilError>)
    requires state.Valid()
    requires |targets| == 1 ==> 0 <= targets[0] < |state.effects|
    ensures r.Failure? ==> IncreaseTargetRangedSpec(logic, state.View(), targets, draw) == Failure(r.error)
    ensures r.Success? ==> fresh(r.value.Repr()) && r.value.Valid()
    ensures r.Success? ==> IncreaseTargetRangedSpec(logic, state.View(), targets, draw) == Success(r.value.View())
  {
    if |targets| != 1 {
      return Failure(TargetSizeMismatch);
    }
    var target := targets[0];
    var next := state.DeepCopy();
    var (diffMin, diffMax) := logic.value;
    var diff := Rng.Ranged(diffMin, diffMax, draw);
    next.ModifyEffectCount(target, diff);
    return Success(next);
  }

  /**
    * DecreaseTurnLeft: lowers the turn counter by the first value, whatever the
    * targets and the draw; slots and mutations stay.
    */
  method DecreaseTurnLeft(logic: ElixirLogic, state: GameState, targets: seq<int>, draw: real) returns (next: GameState)
    requires state.Valid()
    ensures fresh(next.Repr()) && next.Valid()
    ensures next.View() == state.View().(turnLeft := state.turnLeft - logic.value.0)
  {
    next := state.DeepCopy();
    next.ConsumeTurn(logic.value.0);
  }

  /** The unlocked slot indices in ascending order. */
  function UnlockedIndices(locks: seq<bool>): (u: seq<int>)
    ensures forall k :: 0 <= k < |u| ==> 0 <= u[k] < |locks|
  {
    if locks == [] then []
    else
      var last := |locks| - 1;
      UnlockedIndices(locks[..last]) + (if locks[last] then [] else [last])
  }

  /** Only unlocked slots are listed. */
  lemma {:induction false} UnlockedIndicesSound(locks: seq<bool>)
    ensures forall k :: 0 <= k < |UnlockedIndices(locks)| ==> !locks[UnlockedIndices(locks)[k]]
    decreases |locks|
  {
    if locks != [] {
      var last := |locks| - 1;
      UnlockedIndicesSound(locks[..last]);
      assert forall p :: 0 <= p < last ==> locks[..last][p] == locks[p];
    }
  }

  /** The unlocked slots are listed in ascending order. */
  lemma {:induction false} UnlockedIndicesIncreasing(locks: seq<bool>)
    ensures Increasing(UnlockedIndices(locks))
    decreases |locks|
  {
    if locks != [] {
      UnlockedIndicesIncreasing(locks[..|locks| - 1]);
    }
  }

  /** Every unlocked slot is listed. */
  lemma {:induction false} UnlockedIndicesComplete(locks: seq<bool>, p: int)
    requires 0 <= p < |locks| && !locks[p]
    ensures p in UnlockedIndices(locks)
    decreases |locks|
  {
    var last := |locks| - 1;
    if p < last {
      assert locks[..last][p] == locks[p];
      UnlockedIndicesComplete(locks[..last], p);
    }
  }

  /** The indices below `n` that do not occur in `excluded`, in ascending order. */
  function Complement(n: nat, excluded: seq<int>): (c: seq<int>)
    ensures forall k :: 0 <= k < |c| ==> 0 <= c[k] < n && c[k] !in excluded
  {
    if n == 0 then []
    else Complement(n - 1, excluded) + (if n - 1 in excluded then [] else [n - 1])
  }

  /** The indices are listed in ascending order. */
  lemma {:induction false} ComplementIncreasing(n: nat, excluded: seq<int>)
    ensures Increasing(Complement(n, excluded))
    decreases n
  {
    if n > 0 {
      ComplementIncreasing(n - 1, excluded);
    }
  }

  /** Every index below `n` missing from `excluded` is listed. */
  lemma {:induction false} ComplementComplete(n: nat, excluded: seq<int>, p: int)
    requires 0 <= p < n && p !in excluded
    ensures p in Complement(n, excluded)
    decreases n
  {
    if p < n - 1 {
      ComplementComplete(n - 1, excluded, p);
    }
  }

  /**
    * What the zip loop of ShuffleAll leaves behind: each position `starting[k]`
    * takes the old value found at `ending[k]`; positions not listed keep theirs.
    */
  function Reassigned(values: seq<int>, starting: seq<int>, ending: seq<int>): seq<int>
    requires IndicesIn(starting, |values|) && IndicesIn(ending, |values|) && |starting| <= |ending|
  {
    seq(|values|, p requires 0 <= p < |values| =>
      if p in starting then values[ending[IndexOf(starting, p)]] else values[p])
  }

  /**
    * The state ShuffleAll produces when the shuffle of the unlocked indices
    * comes out as `shuffled`: slots are visited as unlocked-then-locked, and
    * each takes the old value at the matching index of shuffled-then-locked.
    */
  function ShuffleAllSpec(s: Snapshot, shuffled: seq<int>): (r: Snapshot)
    requires multiset(shuffled) == multiset(UnlockedIndices(s.Locks()))
    ensures |r.effects| == |s.effects| && r.Locks() == s.Locks()
    ensures r.(effects := s.effects) == s
  {
    var unlocked := UnlockedIndices(s.Locks());
    var locked := Complement(|s.effects|, unlocked);
    IndicesInPermutation(unlocked, shuffled, |s.effects|);
    assert |shuffled| == |multiset(shuffled)| == |unlocked|;
    s.WithValues(Reassigned(s.Values(), unlocked + locked, shuffled + locked))
  }

  /** Slot n - 1 joins either the unlocked prefix or the locked remainder, never both. */
  lemma SlotOrderStep(locks: seq<bool>, n: nat)
    requires 0 < n <= |locks|
    ensures multiset(UnlockedIndices(locks[..n])) + multiset(Complement(n, UnlockedIndices(locks)))
         == multiset(UnlockedIndices(locks[..n - 1])) + multiset(Complement(n - 1, UnlockedIndices(locks))) + multiset{n - 1}
  {
    var unlocked := UnlockedIndices(locks);
    var prefix, shorter := locks[..n], locks[..n - 1];
    assert prefix[..n - 1] == shorter;
    if !locks[n - 1] {
      assert UnlockedIndices(prefix) == UnlockedIndices(shorter) + [n - 1];
      UnlockedIndicesComplete(locks, n - 1);
      assert Complement(n, unlocked) == Complement(n - 1, unlocked);
    } else {
      assert UnlockedIndices(prefix) == UnlockedIndices(shorter);
      UnlockedIndicesSound(locks);
      assert n - 1 !in unlocked;
      assert Complement(n, unlocked) == Complement(n - 1, unlocked) + [n - 1];
    }
  }

  /** Visiting the unlocked slots and then the locked ones visits every slot exactly once. */
  lemma {:induction false} SlotOrderCovers(locks: seq<bool>, n: nat)
    requires n <= |locks|
    ensures multiset(UnlockedIndices(locks[..n])) + multiset(Complement(n, UnlockedIndices(locks)))
         == multiset(Range(n))
    decreases n
  {
    if n == 0 {
      assert locks[..n] == [];
    } else {
      SlotOrderCovers(locks, n - 1);
      SlotOrderStep(locks, n);
      RangeSnoc(n - 1);
    }
  }

  /** No slot occurs twice in the unlocked-then-locked visiting order. */
  lemma SlotOrderDistinct(locks: seq<bool>)
    ensures Distinct(UnlockedIndices(locks) + Complement(|locks|, UnlockedIndices(locks)))
  {
    var unlocked := UnlockedIndices(locks);
    var locked := Complement(|locks|, unlocked);
    UnlockedIndicesIncreasing(locks);
    ComplementIncreasing(|locks|, unlocked);
    assert Distinct(unlocked) && Distinct(locked);
    DistinctAppend(unlocked, locked);
  }

  /** The values after the first k turns of the zip loop. */
  function ReassignedUpTo(values: seq<int>, starting: seq<int>, ending: seq<int>, k: int): (r: seq<int>)
    requires IndicesIn(starting, |values|) && IndicesIn(ending, |values|)
    requires 0 <= k <= |starting| <= |ending|
    ensures |r| == |values|
  {
    assert IndicesIn(starting[..k], |values|) && IndicesIn(ending[..k], |values|);
    Reassigned(values, starting[..k], ending[..k])
  }

  /** Before the first turn the values are untouched; after the last they are the full reassignment. */
  lemma ReassignedUpToEnds(values: seq<int>, starting: seq<int>, ending: seq<int>)
    requires IndicesIn(starting, |values|) && IndicesIn(ending, |values|)
    requires |starting| == |ending|
    ensures ReassignedUpTo(values, starting, ending, 0) == values
    ensures ReassignedUpTo(values, starting, ending, |starting|) == Reassigned(values, starting, ending)
  {
    assert starting[..|starting|] == starting && ending[..|ending|] == ending;
  }

  /** One more turn of the zip loop assigns one more position. */
  lemma ReassignedStep(values: seq<int>, starting: seq<int>, ending: seq<int>, k: int)
    requires IndicesIn(starting, |values|) && IndicesIn(ending, |values|) && |starting| <= |ending|
    requires Distinct(starting) && 0 <= k < |starting|
    ensures ReassignedUpTo(values, starting, ending, k + 1)
         == ReassignedUpTo(values, starting, ending, k)[starting[k] := values[ending[k]]]
  {
    var before, after := starting[..k], starting[..k + 1];
    var stepped := ReassignedUpTo(values, starting, ending, k + 1);
    var updated := ReassignedUpTo(values, starting, ending, k)[starting[k] := values[ending[k]]];
    forall p | 0 <= p < |values| ensures stepped[p] == updated[p] {
      if p == starting[k] {
        assert after[k] == p;
        IndexOfDistinct(after, k);
      } else if p in before {
        var j := IndexOf(before, p);
        IndexOfDistinct(before, j);
        assert after[j] == p;
        IndexOfDistinct(after, j);
      } else {
        assert p !in after;
      }
    }
  }

  /** One turn of the zip loop, stated on whole snapshots. */
  lemma ReassignAlongZipStep(s: Snapshot, values: seq<int>, starting: seq<int>, ending: seq<int>, k: int)
    requires |values| == |s.effects|
    requires IndicesIn(starting, |values|) && IndicesIn(ending, |values|) && |starting| <= |ending|
    requires Distinct(starting) && 0 <= k < |starting|
    ensures s.WithValues(ReassignedUpTo(values, starting, ending, k)).SetEffectCount(starting[k], values[ending[k]])
         == s.WithValues(ReassignedUpTo(values, starting, ending, k + 1))
  {
    ReassignedStep(values, starting, ending, k);
    WithValuesSetEffectCount(s, ReassignedUpTo(values, starting, ending, k), starting[k], values[ending[k]]);
  }

  /** Pairs of valid slot positions, zipped one to one, with no starting slot repeated. */
  predicate ZipPairs(starting: seq<int>, ending: seq<int>, n: int)
  {
    IndicesIn(starting, n) && IndicesIn(ending, n) && |starting| == |ending| && Distinct(starting)
  }

  /**
    * The zip loop of ShuffleAll: slot `starting[k]` takes the old value of slot
    * `ending[k]`, pair by pair.
    */
  method ReassignAlongZip(next: GameState, values: seq<int>, starting: seq<int>, ending: seq<int>)
    requires next.Valid() && values == next.View().Values()
    requires ZipPairs(starting, ending, |values|)
    modifies next.effects
    ensures next.Valid()
    ensures next.View() == old(next.View()).WithValues(Reassigned(values, starting, ending))
  {
    ghost var start := next.View();
    assert start.WithValues(values).effects == start.effects;
    ReassignedUpToEnds(values, starting, ending);
    var k := 0;
    while k < |starting|
      invariant 0 <= k <= |starting|
      invariant next.Valid()
      invariant next.View() == start.WithValues(ReassignedUpTo(values, starting, ending, k))
    {
      ReassignAlongZipStep(start, values, starting, ending, k);
      next.SetEffectCount(starting[k], values[ending[k]]);
      k := k + 1;
    }
  }

  /**
    * ShuffleAll: the values on the unlocked slots are redistributed along the
    * shuffle of the unlocked indices; locked slots keep their values and no
    * lock flag changes. `shuffle` stands for the engine's seeded shuffle.
    */
  method ShuffleAll(logic: ElixirLogic, state: GameState, targets: seq<int>, draw: real, shuffle: Shuffler)
    returns (next: GameState)
    requires state.Valid() && IsPermuting(shuffle)
    ensures fresh(next.Repr()) && next.Valid()
    ensures next.View() == ShuffleAllSpec(state.View(), shuffle(UnlockedIndices(state.View().Locks()), draw))
  {
    next := state.DeepCopy();
    var start := next.View();
    var effectLength := |start.effects|;
    var originalValues := start.Values();
    var unlockedTargetIndices := UnlockedIndices(start.Locks());
    var lockedTargetIndices := Complement(effectLength, unlockedTargetIndices);
    var starting := unlockedTargetIndices + lockedTargetIndices;
    var shuffledIndices := shuffle(unlockedTargetIndices, draw);
    var ending := shuffledIndices + lockedTargetIndices;

    ShuffleAllSetup(start, shuffledIndices);

    ReassignAlongZip(next, originalValues, starting, ending);
  }

  /** The facts the zip loop of ShuffleAll starts from, and the result it must reach. */
  lemma ShuffleAllSetup(s: Snapshot, shuffled: seq<int>)
    requires multiset(shuffled) == multiset(UnlockedIndices(s.Locks()))
    ensures var unlocked := UnlockedIndices(s.Locks());
      var locked := Complement(|s.effects|, unlocked);
      && ZipPairs(unlocked + locked, shuffled + locked, |s.effects|)
      && ShuffleAllSpec(s, shuffled) == s.WithValues(Reassigned(s.Values(), unlocked + locked, shuffled + locked))
  {
    var unlocked := UnlockedIndices(s.Locks());
    IndicesInPermutation(unlocked, shuffled, |s.effects|);
    assert |shuffled| == |multiset(shuffled)| == |unlocked|;
    SlotOrderDistinct(s.Locks());
  }

  /** A slot listed among the locked ones, after as many unlocked ones as there are shuffled ones, is paired with itself. */
  lemma PairedWithItself(unlocked: seq<int>, shuffled: seq<int>, locked: seq<int>, p: int)
    requires |shuffled| == |unlocked| && p !in unlocked && p in locked
    ensures p in unlocked + locked
    ensures (shuffled + locked)[IndexOf(unlocked + locked, p)] == p
  {
    var starting := unlocked + locked;
    var k := IndexOf(starting, p);
    assert starting[k] == locked[k - |unlocked|];
  }

  /** A locked slot keeps its contents under ShuffleAll. */
  lemma ShuffleAllKeepsSlot(s: Snapshot, shuffled: seq<int>, p: int)
    requires multiset(shuffled) == multiset(UnlockedIndices(s.Locks()))
    requires 0 <= p < |s.effects| && s.effects[p].locked
    ensures |ShuffleAllSpec(s, shuffled).effects| == |s.effects|
    ensures ShuffleAllSpec(s, shuffled).effects[p] == s.effects[p]
  {
    var values := s.Values();
    var unlocked := UnlockedIndices(s.Locks());
    var locked := Complement(|s.effects|, unlocked);
    ShuffleAllSetup(s, shuffled);
    assert |shuffled| == |multiset(shuffled)| == |unlocked|;
    assert s.Locks()[p];
    UnlockedIndicesSound(s.Locks());
    assert p !in unlocked;
    ComplementComplete(|s.effects|, unlocked, p);
    PairedWithItself(unlocked, shuffled, locked, p);
    assert Reassigned(values, unlocked + locked, shuffled + locked)[p] == values[p];
  }

  /** ShuffleAll leaves every locked slot, every lock flag and everything but the values as they were. */
  lemma ShuffleAllKeepsLocked(s: Snapshot, shuffled: seq<int>)
    requires multiset(shuffled) == multiset(UnlockedIndices(s.Locks()))
    ensures |ShuffleAllSpec(s, shuffled).effects| == |s.effects|
    ensures ShuffleAllSpec(s, shuffled).Locks() == s.Locks()
    ensures forall p :: 0 <= p < |s.effects| && s.effects[p].locked ==> ShuffleAllSpec(s, shuffled).effects[p] == s.effects[p]
    ensures ShuffleAllSpec(s, shuffled).(effects := s.effects) == s
  {
    forall p | 0 <= p < |s.effects| && s.effects[p].locked
      ensures ShuffleAllSpec(s, shuffled).effects[p] == s.effects[p]
    {
      ShuffleAllKeepsSlot(s, shuffled, p);
    }
  }

  /** After the reassignment, slot `starting[k]` holds the old value of slot `ending[k]`. */
  lemma ReassignedGather(values: seq<int>, starting: seq<int>, ending: seq<int>)
    requires IndicesIn(starting, |values|) && IndicesIn(ending, |values|)
    requires |starting| == |ending| && Distinct(starting)
    ensures |Reassigned(values, starting, ending)| == |values|
    ensures Gather(Reassigned(values, starting, ending), starting) == Gather(values, ending)
  {
    var moved := Reassigned(values, starting, ending);
    GatherAt(moved, starting);
    GatherAt(values, ending);
    forall k | 0 <= k < |starting| ensures moved[starting[k]] == values[ending[k]] {
      IndexOfDistinct(starting, k);
    }
  }

  /**
    * ShuffleAll moves values only among the unlocked slots: the k-th unlocked
    * slot takes the old value of the k-th shuffled index, so the unlocked
    * values are a permutation of the old unlocked values.
    */
  lemma ShuffleAllPermutesUnlocked(s: Snapshot, shuffled: seq<int>)
    requires multiset(shuffled) == multiset(UnlockedIndices(s.Locks()))
    ensures IndicesIn(UnlockedIndices(s.Locks()), |s.effects|) && IndicesIn(shuffled, |s.effects|)
    ensures Gather(ShuffleAllSpec(s, shuffled).Values(), UnlockedIndices(s.Locks())) == Gather(s.Values(), shuffled)
    ensures multiset(Gather(ShuffleAllSpec(s, shuffled).Values(), UnlockedIndices(s.Locks())))
         == multiset(Gather(s.Values(), UnlockedIndices(s.Locks())))
  {
    var values := s.Values();
    var unlocked := UnlockedIndices(s.Locks());
    var locked := Complement(|s.effects|, unlocked);
    ShuffleAllSetup(s, shuffled);
    IndicesInPermutation(unlocked, shuffled, |s.effects|);
    assert |shuffled| == |multiset(shuffled)| == |unlocked|;
    var moved := Reassigned(values, unlocked + locked, shuffled + locked);
    assert ShuffleAllSpec(s, shuffled).Values() == moved;
    ReassignedGather(values, unlocked + locked, shuffled + locked);
    GatherAppend(moved, unlocked, locked);
    GatherAppend(values, shuffled, locked);
    GatherAt(moved, unlocked);
    GatherAt(values, shuffled);
    var front, back := Gather(moved, unlocked), Gather(values, shuffled);
    assert front == (front + Gather(moved, locked))[..|front|];
    assert back == (back + Gather(values, locked))[..|back|];
    GatherPermutation(values, unlocked, shuffled);
  }

  /** ShuffleAll keeps the multiset of slot values, hence their total. */
  lemma ShuffleAllPreservesTotal(s: Snapshot, shuffled: seq<int>)
    requires multiset(shuffled) == multiset(UnlockedIndices(s.Locks()))
    ensures multiset(ShuffleAllSpec(s, shuffled).Values()) == multiset(s.Values())
    ensures Sum(ShuffleAllSpec(s, shuffled).Values()) == Sum(s.Values())
  {
    var values := s.Values();
    var n := |values|;
    var locks := s.Locks();
    var unlocked := UnlockedIndices(locks);
    var locked := Complement(n, unlocked);
    var starting, ending := unlocked + locked, shuffled + locked;
    ShuffleAllSetup(s, shuffled);
    var moved := Reassigned(values, starting, ending);
    assert ShuffleAllSpec(s, shuffled).Values() == moved;
    ReassignedGather(values, starting, ending);
    assert locks[..n] == locks;
    SlotOrderCovers(locks, n);
    assert multiset(starting) == multiset(Range(n));
    assert multiset(ending) == multiset(Range(n));
    GatherRange(moved);
    GatherRange(values);
    GatherPermutation(moved, Range(n), starting);
    GatherPermutation(values, Range(n), ending);
    SumPermutation(moved, values);
  }

  /** For a draw in [0, 10000), the ranged reducer moves its target between the clamped ends. */
  lemma IncreaseTargetRangedWithin(logic: ElixirLogic, s: Snapshot, target: int, draw: real)
    requires 0 <= target < |s.effects|
    requires logic.value.0 <= logic.value.1 && 0.0 <= draw < 10000.0
    ensures var r := IncreaseTargetRangedSpec(logic, s, [target], draw);
      && r.Success?
      && Clamp(s.effects[target].value + logic.value.0) <= r.value.effects[target].value
      && r.value.effects[target].value <= Clamp(s.effects[target].value + logic.value.1)
  {
    RangedWithin(logic.value.0, logic.value.1, draw);
  }

  /** Slot `index` moved by exactly `amount`; nothing else differs. */
  function Changed(s: Snapshot, index: int, amount: int): Snapshot
    requires 0 <= index < |s.effects|
  {
    s.SetEffectCount(index, s.effects[index].value + amount)
  }

  /** The rows of the engine's test table for IncreaseTargetWithRatio, including the arity error. */
  lemma IncreaseTargetWithRatioTestTable(s: Snapshot)
    requires |s.effects| == 5 && 0 <= s.effects[0].value < MaxEffectCount
    ensures IncreaseTargetWithRatioSpec(ElixirLogic((1, 0), 1500, 1), s, [0], 3500.0) == Success(Changed(s, 0, 0))
    ensures IncreaseTargetWithRatioSpec(ElixirLogic((1, 0), 3500, 1), s, [0], 2000.0) == Success(Changed(s, 0, 1))
    ensures IncreaseTargetWithRatioSpec(ElixirLogic((1, 0), 10000, 1), s, [0], 9999.999999) == Success(Changed(s, 0, 1))
    ensures IncreaseTargetWithRatioSpec(ElixirLogic((1, 0), 2500, 1), s, [0], 2500.1) == Success(Changed(s, 0, 0))
    ensures IncreaseTargetWithRatioSpec(ElixirLogic((1, 0), 2500, 1), s, [2, 3], 2344.0) == Failure(TargetSizeMismatch)
  {
    assert Changed(s, 0, 0).effects == s.effects;
  }

  /** The rows of the engine's test table for IncreaseTargetRanged, including the arity error. */
  lemma IncreaseTargetRangedTestTable(s: Snapshot)
    requires |s.effects| == 5 && 2 <= s.effects[0].value <= MaxEffectCount - 2
    ensures IncreaseTargetRangedSpec(ElixirLogic((1, 2), 0, 1), s, [0], 2500.0) == Success(Changed(s, 0, 1))
    ensures IncreaseTargetRangedSpec(ElixirLogic((1, 2), 0, 1), s, [0], 7500.0) == Success(Changed(s, 0, 2))
    ensures IncreaseTargetRangedSpec(ElixirLogic((0, 2), 0, 1), s, [0], 2500.0) == Success(Changed(s, 0, 0))
    ensures IncreaseTargetRangedSpec(ElixirLogic((0, 2), 0, 1), s, [0], 6000.0) == Success(Changed(s, 0, 1))
    ensures IncreaseTargetRangedSpec(ElixirLogic((-2, 2), 0, 1), s, [0], 5000.0) == Success(Changed(s, 0, 0))
    ensures IncreaseTargetRangedSpec(ElixirLogic((-2, 2), 0, 1), s, [0], 9200.0) == Success(Changed(s, 0, 2))
    ensures IncreaseTargetRangedSpec(ElixirLogic((-2, 2), 0, 1), s, [0], 2100.0) == Success(Changed(s, 0, -1))
    ensures IncreaseTargetRangedSpec(ElixirLogic((1, 0), 2500, 1), s, [2, 3], 2344.0) == Failure(TargetSizeMismatch)
  {
    RangedTestTable();
  }
}
