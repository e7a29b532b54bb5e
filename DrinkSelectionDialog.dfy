// The drink option dialog (src/components/DrinkSelectionDialog.tsx): pickers
// for temperature and sweetness and a quantity counter that never goes below 1
// by decrement, increments without limit, and returns to the initial values
// whenever the dialog opens.
module DrinkSelectionDialog {
  import opened Wrappers
  import opened Types

  /** The temperature buttons, in display order. */
  const Temperatures: seq<Temperature> := [RoomTemperature, Hot, StandardIce, LessIce, NoIce]

  /** The sweetness buttons, in display order. */
  const SweetnessOptions: seq<Sweetness> := [NoSugar, LessSugar, StandardSugar]

  const DefaultTemperature: Temperature := StandardIce
  const DefaultSweetness: Sweetness := StandardSugar
  const DefaultQuantity: int := 1

  /** Every temperature and every sweetness has exactly one button. */
  lemma OptionsListEveryValueOnce()
    ensures forall t: Temperature :: multiset(Temperatures)[t] == 1
    ensures forall s: Sweetness :: multiset(SweetnessOptions)[s] == 1
  {
    forall t: Temperature ensures multiset(Temperatures)[t] == 1 {
      match t
      case RoomTemperature =>
      case Hot =>
      case StandardIce =>
      case LessIce =>
      case NoIce =>
    }
    forall s: Sweetness ensures multiset(SweetnessOptions)[s] == 1 {
      match s
      case NoSugar =>
      case LessSugar =>
      case StandardSugar =>
    }
  }

  /** What `onConfirm` receives. */
  datatype Choice = Choice(temperature: Temperature, sweetness: Sweetness, quantity: int)

  /** A press of the minus or the plus button. */
  datatype QuantityOp = Decrease | Increase

  /** `handleDecrease`: one less, but only while the quantity is above 1. */
  function Decreased(q: int): int
  {
    if q > 1 then q - 1 else q
  }

  /** The minus button is disabled at or below 1. */
  predicate DecreaseDisabled(q: int)
  {
    q <= 1
  }

  /** The minus button is disabled exactly when pressing it would change nothing. */
  lemma DecreaseDisabledIffNoEffect(q: int)
    ensures DecreaseDisabled(q) <==> Decreased(q) == q
  {
  }

  /** The quantity after a series of presses. */
  function Apply(q: int, ops: seq<QuantityOp>): int
    decreases |ops|
  {
    if ops == [] then q
    else Apply(if ops[0] == Decrease then Decreased(q) else q + 1, ops[1..])
  }

  /** From any quantity of at least 1, no series of presses takes it below 1. */
  lemma {:induction false} ApplyKeepsFloor(q: int, ops: seq<QuantityOp>)
    requires q >= 1
    ensures Apply(q, ops) >= 1
    decreases |ops|
  {
    if ops != [] {
      ApplyKeepsFloor(if ops[0] == Decrease then Decreased(q) else q + 1, ops[1..]);
    }
  }

  /** `n` presses of minus bring the quantity down by `n`, but not below 1. */
  lemma {:induction false} DecreasesClamp(q: int, n: nat)
    requires q >= 1
    ensures Apply(q, seq(n, _ => Decrease)) == if q - n >= 1 then q - n else 1
    decreases n
  {
    if n > 0 {
      var ops := seq(n, _ => Decrease);
      assert ops[0] == Decrease && ops[1..] == seq(n - 1, _ => Decrease);
      DecreasesClamp(Decreased(q), n - 1);
    }
  }

  /** `n` presses of plus add exactly `n`: there is no upper bound. */
  lemma {:induction false} IncreasesUnbounded(q: int, n: nat)
    ensures Apply(q, seq(n, _ => Increase)) == q + n
    decreases n
  {
    if n > 0 {
      var ops := seq(n, _ => Increase);
      assert ops[0] == Increase && ops[1..] == seq(n - 1, _ => Increase);
      IncreasesUnbounded(q + 1, n - 1);
    }
  }

  /** The dialog's three state cells, its open flag and the `onConfirm` calls made so far. */
  class DrinkDialog {
    const initialTemperature: Temperature
    const initialSweetness: Sweetness
    const initialQuantity: int
    var open: bool
    var temperature: Temperature
    var sweetness: Sweetness
    var quantity: int
    var confirmed: seq<Choice>

    /** The quantity never falls below the smaller of 1 and the initial quantity. */
    ghost predicate Valid()
      reads this
    {
      quantity >= 1 || quantity >= initialQuantity
    }

    /** The props, each defaulting when absent; the state starts at the initial values. */
    constructor (isOpen: bool, initTemperature: Option<Temperature>, initSweetness: Option<Sweetness>, initQuantity: Option<int>)
      ensures Valid()
      ensures initialTemperature == if initTemperature.Some? then initTemperature.value else DefaultTemperature
      ensures initialSweetness == if initSweetness.Some? then initSweetness.value else DefaultSweetness
      ensures initialQuantity == if initQuantity.Some? then initQuantity.value else DefaultQuantity
      ensures open == isOpen && confirmed == []
      ensures temperature == initialTemperature && sweetness == initialSweetness && quantity == initialQuantity
    {
      initialTemperature := if initTemperature.Some? then initTemperature.value else DefaultTemperature;
      initialSweetness := if initSweetness.Some? then initSweetness.value else DefaultSweetness;
      initialQuantity := if initQuantity.Some? then initQuantity.value else DefaultQuantity;
      open := isOpen;
      temperature := initialTemperature;
      sweetness := initialSweetness;
      quantity := initialQuantity;
      confirmed := [];
    }

    /**
     * The host renders the dialog with `open` set. The reset effect runs only
     * when `open` changes, so a closed dialog opens with the three initial
     * values and an open one keeps its current choice.
     */
    method Open()
      requires Valid()
      modifies this`open, this`temperature, this`sweetness, this`quantity
      ensures Valid() && open
      ensures !old(open) ==>
        temperature == initialTemperature && sweetness == initialSweetness && quantity == initialQuantity
      ensures old(open) ==>
        temperature == old(temperature) && sweetness == old(sweetness) && quantity == old(quantity)
    {
      if !open {
        open := true;
        temperature := initialTemperature;
        sweetness := initialSweetness;
        quantity := initialQuantity;
      }
    }

    method ChooseTemperature(t: Temperature)
      modifies this`temperature
      ensures temperature == t
    {
      temperature := t;
    }

    method ChooseSweetness(s: Sweetness)
      modifies this`sweetness
      ensures sweetness == s
    {
      sweetness := s;
    }

    /** `handleDecrease`. */
    method Decrease()
      requires Valid()
      modifies this`quantity
      ensures Valid()
      ensures quantity == Decreased(old(quantity))
      ensures old(quantity) >= 1 ==> quantity >= 1
    {
      if quantity > 1 {
        quantity := quantity - 1;
      }
    }

    /** `handleIncrease`. */
    method Increase()
      requires Valid()
      modifies this`quantity
      ensures Valid()
      ensures quantity == old(quantity) + 1
    {
      quantity := quantity + 1;
    }

    /** `handleConfirm`: reports the current choice once, then closes. */
    method Confirm() returns (c: Choice)
      modifies this`open, this`confirmed
      ensures c == Choice(temperature, sweetness, quantity)
      ensures confirmed == old(confirmed) + [c]
      ensures !open
    {
      c := Choice(temperature, sweetness, quantity);
      confirmed := confirmed + [c];
      open := false;
    }

    /** The cancel button: closes without reporting anything. */
    method Cancel()
      modifies this`open
      ensures !open
    {
      open := false;
    }
  }
}
