/**
  * The data model of the enchanting minigame (pylixir/core/base.py): timed
  * mutations, sages, effect slots, the game state that aggregates them, and the
  * seeded random-number helpers that turn one draw in [0, 10000) into a value.
  */
module Base {
  import opened Wrappers

  /** What a timed mutation adjusts. */
  datatype MutationTarget = Prob | LuckyRatio | EnchantIncreaseAmount | EnchantEffectCount

  /** A timed modifier: adjusts `target` of slot `index` by `value` for `remainTurn` turns. */
  datatype Mutation = Mutation(target: MutationTarget, index: int, value: int, remainTurn: int)

  /** The allegiance of a sage. */
  datatype SageType = None | Lawful | Chaos

  /** A council participant with a signed power. */
  datatype Sage = Sage(power: int, isRemoved: bool)
  {
    /** The sign of the power decides the allegiance; exactly one case holds. */
    function Type(): (t: SageType)
      ensures t == None <==> power == 0
      ensures t == Lawful <==> power > 0
      ensures t == Chaos <==> power < 0
    {
      if power == 0 then None
      else if power > 0 then Lawful
      else Chaos
    }
  }

  /** The phases the surrounding environment steps the game through. */
  datatype GamePhase = Option | Council | Enchant | Done

  /** The global cap used by the saturating slot arithmetic. */
  const MaxEffectCount := 13

  /** `value` forced into [0, MaxEffectCount], as `min(max(0, value), MaxEffectCount)`. */
  function Clamp(value: int): (r: int)
    ensures 0 <= r <= MaxEffectCount
    ensures 0 <= value <= MaxEffectCount ==> r == value
    ensures value < 0 ==> r == 0
    ensures value > MaxEffectCount ==> r == MaxEffectCount
  {
    var atLeastZero := if value < 0 then 0 else value;
    if atLeastZero > MaxEffectCount then MaxEffectCount else atLeastZero
  }

  /** The contents of one effect slot, without object identity. */
  datatype EffectValue = EffectValue(name: string, value: int, locked: bool)

  /** The contents of a whole game state, without object identity. */
  datatype Snapshot = Snapshot(
    phase: GamePhase,
    turnLeft: int,
    rerollLeft: int,
    effects: seq<EffectValue>,
    mutations: seq<Mutation>,
    sages: seq<Sage>)
  {
    /** The slot values in slot order. */
    function Values(): seq<int>
    {
      seq(|effects|, k requires 0 <= k < |effects| => effects[k].value)
    }

    /** The lock flags in slot order. */
    function Locks(): seq<bool>
    {
      seq(|effects|, k requires 0 <= k < |effects| => effects[k].locked)
    }

    /** Slot `i` holds `amount` verbatim, without clamping; nothing else changes. */
    function SetEffectCount(i: int, amount: int): (r: Snapshot)
      requires 0 <= i < |effects|
      ensures |r.effects| == |effects|
      ensures r.effects[i].value == amount
      ensures r.effects[i].locked == effects[i].locked && r.effects[i].name == effects[i].name
      ensures forall j :: 0 <= j < |effects| && j != i ==> r.effects[j] == effects[j]
      ensures r.(effects := effects) == this
    {
      this.(effects := effects[i := effects[i].(value := amount)])
    }

    /**
      * Slot `i` moves by `amount` and saturates into [0, MaxEffectCount]:
      * exact when the sum stays in range, 0 below it, MaxEffectCount above it.
      * Nothing but the value of slot `i` changes.
      */
    function ModifyEffectCount(i: int, amount: int): (r: Snapshot)
      requires 0 <= i < |effects|
      ensures |r.effects| == |effects|
      ensures 0 <= r.effects[i].value <= MaxEffectCount
      ensures 0 <= effects[i].value + amount <= MaxEffectCount ==> r.effects[i].value == effects[i].value + amount
      ensures effects[i].value + amount < 0 ==> r.effects[i].value == 0
      ensures effects[i].value + amount > MaxEffectCount ==> r.effects[i].value == MaxEffectCount
      ensures r.effects[i].locked == effects[i].locked && r.effects[i].name == effects[i].name
      ensures forall j :: 0 <= j < |effects| && j != i ==> r.effects[j] == effects[j]
      ensures r.(effects := effects) == this
    {
      SetEffectCount(i, Clamp(effects[i].value + amount))
    }

    /** Every slot takes the matching entry of `values`; names, lock flags and the rest stay. */
    function WithValues(values: seq<int>): (r: Snapshot)
      requires |values| == |effects|
      ensures |r.effects| == |effects|
      ensures forall j :: 0 <= j < |effects| ==> r.effects[j] == effects[j].(value := values[j])
      ensures r.Values() == values && r.Locks() == Locks()
      ensures r.(effects := effects) == this
    {
      this.(effects := seq(|effects|, k requires 0 <= k < |effects| => effects[k].(value := values[k])))
    }

    /** Slot `i` gets lock flag `flag`; its value, the other slots and the rest stay. */
    function SetLock(i: int, flag: bool): (r: Snapshot)
      requires 0 <= i < |effects|
      ensures |r.effects| == |effects|
      ensures r.effects[i].locked == flag
      ensures r.effects[i].value == effects[i].value && r.effects[i].name == effects[i].name
      ensures forall j :: 0 <= j < |effects| && j != i ==> r.effects[j] == effects[j]
      ensures r.(effects := effects) == this
    {
      this.(effects := effects[i := effects[i].(locked := flag)])
    }
  }

  /** Setting a lock flag twice is the same as setting it once. */
  lemma SetLockIdempotent(s: Snapshot, i: int, flag: bool)
    requires 0 <= i < |s.effects|
    ensures s.SetLock(i, flag).SetLock(i, flag) == s.SetLock(i, flag)
  {
  }

  /** Writing one slot after a bulk write is the bulk write of the updated values. */
  lemma WithValuesSetEffectCount(s: Snapshot, values: seq<int>, i: int, amount: int)
    requires |values| == |s.effects| && 0 <= i < |s.effects|
    ensures s.WithValues(values).SetEffectCount(i, amount) == s.WithValues(values[i := amount])
  {
    var lhs, rhs := s.WithValues(values).SetEffectCount(i, amount), s.WithValues(values[i := amount]);
    assert lhs.effects == rhs.effects;
  }

  /** One effect slot, updated in place. */
  class Effect {
    const name: string
    var value: int
    var locked: bool

    constructor(name: string, value: int, locked: bool)
      ensures View() == EffectValue(name, value, locked)
    {
      this.name := name;
      this.value := value;
      this.locked := locked;
    }

    /** The slot's contents as a value. */
    function View(): EffectValue
      reads this
    {
      EffectValue(name, value, locked)
    }

    /** Sets the lock flag; the name and value stay. */
    method Lock()
      modifies this`locked
      ensures View() == old(View()).(locked := true)
    {
      locked := true;
    }

    /** Clears the lock flag; the name and value stay. */
    method Unlock()
      modifies this`locked
      ensures View() == old(View()).(locked := false)
    {
      locked := false;
    }
  }

  /**
    * The game state: five effect slots (distinct objects updated in place),
    * three sages, the turn and reroll counters and the mutation ledger.
    */
  class GameState {
    var phase: GamePhase
    var turnLeft: int
    var rerollLeft: int
    const effects: seq<Effect>
    var mutations: seq<Mutation>
    var sages: seq<Sage>

    /** Exactly five slots, no two of them the same object, and exactly three sages. */
    ghost predicate Valid()
      reads this
    {
      && |effects| == 5
      && |sages| == 3
      && forall a, b :: 0 <= a < b < |effects| ==> effects[a] != effects[b]
    }

    /** The objects that make up this state. */
    ghost function Repr(): set<object>
    {
      var slots: set<object> := set k | 0 <= k < |effects| :: effects[k];
      {this} + slots
    }

    /** The state's contents as a value. */
    function View(): Snapshot
      reads this, effects
      requires Valid()
    {
      Snapshot(phase, turnLeft, rerollLeft,
        [effects[0].View(), effects[1].View(), effects[2].View(), effects[3].View(), effects[4].View()],
        mutations, sages)
    }

    constructor(phase: GamePhase, turnLeft: int, rerollLeft: int, effects: seq<Effect>,
                mutations: seq<Mutation>, sages: seq<Sage>)
      requires |effects| == 5 && |sages| == 3
      requires forall a, b :: 0 <= a < b < |effects| ==> effects[a] != effects[b]
      ensures Valid()
      ensures this.phase == phase && this.turnLeft == turnLeft && this.rerollLeft == rerollLeft
      ensures this.effects == effects && this.mutations == mutations && this.sages == sages
    {
      this.phase := phase;
      this.turnLeft := turnLeft;
      this.rerollLeft := rerollLeft;
      this.effects := effects;
      this.mutations := mutations;
      this.sages := sages;
    }

    /** Appends one mutation to the ledger; nothing else changes. */
    method AddMutation(mutation: Mutation)
      requires Valid()
      modifies this`mutations
      ensures Valid()
      ensures View() == old(View()).(mutations := old(mutations) + [mutation])
    {
      mutations := mutations + [mutation];
    }

    /** An independent copy: new objects throughout, the same contents. */
    method DeepCopy() returns (copy: GameState)
      requires Valid()
      ensures fresh(copy.Repr())
      ensures fresh(copy) && forall k :: 0 <= k < |copy.effects| ==> fresh(copy.effects[k])
      ensures copy.Valid() && copy.View() == View()
    {
      var e0 := new Effect(effects[0].name, effects[0].value, effects[0].locked);
      var e1 := new Effect(effects[1].name, effects[1].value, effects[1].locked);
      var e2 := new Effect(effects[2].name, effects[2].value, effects[2].locked);
      var e3 := new Effect(effects[3].name, effects[3].value, effects[3].locked);
      var e4 := new Effect(effects[4].name, effects[4].value, effects[4].locked);
      copy := new GameState(phase, turnLeft, rerollLeft, [e0, e1, e2, e3, e4], mutations, sages);
    }

    /** Moves slot `i` by `amount`, saturating into [0, MaxEffectCount]. */
    method ModifyEffectCount(i: int, amount: int)
      requires Valid() && 0 <= i < |effects|
      modifies effects[i]
      ensures Valid()
      ensures View() == old(View()).ModifyEffectCount(i, amount)
    {
      var basis := effects[i].value;
      basis := basis + amount;
      basis := Clamp(basis);
      effects[i].value := basis;
    }

    /** Stores `amount` in slot `i` verbatim. */
    method SetEffectCount(i: int, amount: int)
      requires Valid() && 0 <= i < |effects|
      modifies effects[i]
      ensures Valid()
      ensures View() == old(View()).SetEffectCount(i, amount)
    {
      effects[i].value := amount;
    }

    /** Lowers the turn counter by exactly `count`, with no floor at zero. */
    method ConsumeTurn(count: int)
      requires Valid()
      modifies this`turnLeft
      ensures Valid()
      ensures View() == old(View()).(turnLeft := old(turnLeft) - count)
    {
      turnLeft := turnLeft - count;
    }

    /** The slot values in slot order. */
    function GetEffectValues(): (values: seq<int>)
      reads this, effects
      requires Valid()
      ensures |values| == 5
      ensures forall k :: 0 <= k < 5 ==> values[k] == effects[k].value
      ensures values == View().Values()
    {
      [effects[0].value, effects[1].value, effects[2].value, effects[3].value, effects[4].value]
    }

    /** Locks slot `i`. */
    method Lock(i: int)
      requires Valid() && 0 <= i < |effects|
      modifies effects[i]
      ensures Valid()
      ensures View() == old(View()).SetLock(i, true)
    {
      effects[i].Lock();
    }

    /** Unlocks slot `i`. */
    method Unlock(i: int)
      requires Valid() && 0 <= i < |effects|
      modifies effects[i]
      ensures Valid()
      ensures View() == old(View()).SetLock(i, false)
    {
      effects[i].Unlock();
    }
  }

  /** The failure `pick` raises when it is given nothing to pick from. */
  datatype RngError = EmptyInput

  /** The seeded list shuffle the engine delegates to (Python's `random.Random`). */
  type Shuffler = (seq<int>, real) -> seq<int>

  /** A shuffle never adds, drops or duplicates an element. */
  ghost predicate IsPermuting(shuffle: Shuffler)
  {
    forall values, draw :: multiset(shuffle(values, draw)) == multiset(values)
  }

  /** Python's `int()` on a number: truncation toward zero. */
  function Trunc(x: real): int
  {
    if x >= 0.0 then x.Floor else -((-x).Floor)
  }

  /**
    * The seeded random-number stream. `chainedSample` is the fixed step that
    * turns a seed into the next draw (a foreign PRNG in the original).
    */
  class Rng {
    var seed: real
    const chainedSample: real -> real

    constructor(startSeed: real, chainedSample: real -> real)
      ensures seed == startSeed && this.chainedSample == chainedSample
    {
      seed := startSeed;
      this.chainedSample := chainedSample;
    }

    /** Draws the next number; the stored seed becomes the returned draw. */
    method Sample() returns (sampled: real)
      modifies this`seed
      ensures sampled == chainedSample(old(seed))
      ensures seed == sampled
    {
      sampled := chainedSample(seed);
      seed := sampled;
    }

    /** Maps a draw in [0, 10000) onto the closed interval [minRange, maxRange]. */
    static function Ranged(minRange: int, maxRange: int, draw: real): (r: int)
      ensures minRange <= maxRange && 0.0 <= draw ==>
        r == (draw / 10000.0 * (maxRange - minRange + 1) as real).Floor + minRange
    {
      var binSize := maxRange - minRange + 1;
      Trunc(draw / 10000.0 * binSize as real) + minRange
    }

    /** The first element of the shuffled values; fails on an empty list. */
    static function Pick(values: seq<int>, draw: real, shuffle: Shuffler): (r: Result<int, RngError>)
      requires IsPermuting(shuffle)
      ensures r.Success? <==> |values| > 0
      ensures r.Failure? ==> r.error == EmptyInput
      ensures r.Success? ==> r.value in values
    {
      var shuffled := shuffle(values, draw);
      assert |shuffled| == |multiset(shuffled)| == |values|;
      if |shuffled| == 0 then Failure(EmptyInput)
      else
        assert shuffled[0] in multiset(values);
        Success(shuffled[0])
    }
  }

  /** For a draw in [0, 10000), the ranged value lies in [minRange, maxRange]. */
  lemma RangedWithin(minRange: int, maxRange: int, draw: real)
    requires minRange <= maxRange && 0.0 <= draw < 10000.0
    ensures minRange <= Rng.Ranged(minRange, maxRange, draw) <= maxRange
  {
    var b := (maxRange - minRange + 1) as real;
    var f := draw / 10000.0;
    var x := f * b;
    assert 0.0 <= f < 1.0;
    assert 0.0 <= x by {
      assert f * b >= 0.0 * b;
    }
    assert x < b by {
      var g := 1.0 - f;
      assert g > 0.0 && b > 0.0;
      assert g * b > 0.0;
      assert b - x == g * b;
    }
    assert Trunc(x) == x.Floor;
  }

  /** The zero draw gives the lower end of the interval. */
  lemma RangedAtZero(minRange: int, maxRange: int)
    requires minRange <= maxRange
    ensures Rng.Ranged(minRange, maxRange, 0.0) == minRange
  {
  }

  /** A larger draw never gives a smaller value. */
  lemma RangedMonotone(minRange: int, maxRange: int, lower: real, upper: real)
    requires minRange <= maxRange && 0.0 <= lower <= upper
    ensures Rng.Ranged(minRange, maxRange, lower) <= Rng.Ranged(minRange, maxRange, upper)
  {
    var b := (maxRange - minRange + 1) as real;
    var xl, xu := lower / 10000.0 * b, upper / 10000.0 * b;
    assert 0.0 <= xl by {
      assert lower / 10000.0 * b >= 0.0 * b;
    }
    assert xl <= xu by {
      assert xu - xl == (upper - lower) / 10000.0 * b;
      assert (upper - lower) / 10000.0 * b >= 0.0;
    }
  }

  /** A draw in the last bin, [10000 - 10000 / binSize, 10000), gives the upper end. */
  lemma RangedAtTop(minRange: int, maxRange: int, draw: real)
    requires minRange <= maxRange
    requires 10000.0 - 10000.0 / (maxRange - minRange + 1) as real <= draw < 10000.0
    ensures Rng.Ranged(minRange, maxRange, draw) == maxRange
  {
    var b := (maxRange - minRange + 1) as real;
    var x := draw / 10000.0 * b;
    RangedWithin(minRange, maxRange, draw);
    assert b - 1.0 <= x by {
      assert x - (b - 1.0) == (draw - (10000.0 - 10000.0 / b)) / 10000.0 * b;
      assert (draw - (10000.0 - 10000.0 / b)) / 10000.0 * b >= 0.0;
    }
    assert Trunc(x) == x.Floor;
  }

  /** Draws and ranges taken from the engine's own test table. */
  lemma RangedTestTable()
    ensures Rng.Ranged(1, 2, 2500.0) == 1 && Rng.Ranged(1, 2, 7500.0) == 2
    ensures Rng.Ranged(0, 2, 2500.0) == 0 && Rng.Ranged(0, 2, 6000.0) == 1
    ensures Rng.Ranged(-2, 2, 5000.0) == 0 && Rng.Ranged(-2, 2, 9200.0) == 2
    ensures Rng.Ranged(-2, 2, 2100.0) == -1
  {
  }
}
