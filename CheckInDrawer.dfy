// The check-in drawer (src/components/CheckInDrawer.tsx): a drink catalog whose
// entries toggle in and out of a selection, a seat grid grouped by area, and a
// session holding the selected drinks and seat. Completing occupies the chosen
// seat in the drawer's own seat registry; cancelling touches nothing there.
module CheckInDrawer {
  import opened Wrappers
  import opened Types
  import opened Strings
  import opened Seqs
  import opened SeatStatus

  /** The fixed drink list offered in the drawer. */
  const Catalog: seq<Drink> := [
    Drink("1", "美式咖啡", Some("☕"), Some(25)),
    Drink("2", "拿铁", Some("☕"), Some(30)),
    Drink("3", "卡布奇诺", Some("☕"), Some(32)),
    Drink("4", "龙井茶", Some("🍵"), Some(28)),
    Drink("5", "铁观音", Some("🍵"), Some(30)),
    Drink("6", "鲜榨橙汁", Some("🍹"), Some(25)),
    Drink("7", "鲜榨西瓜汁", Some("🍹"), Some(22)),
    Drink("8", "柠檬蜂蜜水", Some("🍋"), Some(20)),
    Drink("9", "矿泉水", Some("💧"), Some(5))
  ]

  /** The catalog offers nine drinks with distinct ids, each with an icon and a positive price. */
  lemma CatalogWellFormed()
    ensures |Catalog| == 9 && DistinctDrinkIds(Catalog)
    ensures forall d :: d in Catalog ==> d.icon.Some? && d.price.Some? && d.price.value > 0
  {
  }

  /** `selectedDrinks.some(d => d.id === id)`. */
  function IsDrinkSelected(s: seq<Drink>, id: string): (r: bool)
    ensures r <==> exists i :: 0 <= i < |s| && s[i].id == id
  {
    if s == [] then false else s[0].id == id || IsDrinkSelected(s[1..], id)
  }

  /** `prev.filter(d => d.id !== id)`. */
  function WithoutId(s: seq<Drink>, id: string): seq<Drink>
  {
    Filter(s, (d: Drink) => d.id != id)
  }

  /** The updater of `toggleDrink`: drop every entry with the drink's id, or append the drink. */
  function Toggle(s: seq<Drink>, d: Drink): seq<Drink>
  {
    if IsDrinkSelected(s, d.id) then WithoutId(s, d.id) else s + [d]
  }

  predicate DistinctDrinkIds(s: seq<Drink>)
  {
    forall i, j :: 0 <= i < j < |s| ==> s[i].id != s[j].id
  }

  lemma {:induction false} WithoutIdSelection(s: seq<Drink>, id: string, x: string)
    ensures IsDrinkSelected(WithoutId(s, id), x) <==> x != id && IsDrinkSelected(s, x)
  {
    if s != [] {
      WithoutIdSelection(s[1..], id, x);
    }
  }

  lemma {:induction false} WithoutIdAbsent(s: seq<Drink>, id: string)
    requires !IsDrinkSelected(s, id)
    ensures WithoutId(s, id) == s
  {
    FilterAll(s, (d: Drink) => d.id != id);
  }

  lemma {:induction false} WithoutIdKeepsDistinct(s: seq<Drink>, id: string)
    requires DistinctDrinkIds(s)
    ensures DistinctDrinkIds(WithoutId(s, id))
  {
    if s != [] {
      WithoutIdKeepsDistinct(s[1..], id);
      if s[0].id != id {
        WithoutIdSelection(s[1..], id, s[0].id);
        var r := WithoutId(s, id);
        assert r == [s[0]] + WithoutId(s[1..], id);
        forall i, j | 0 <= i < j < |r| ensures r[i].id != r[j].id {
          if i == 0 {
            assert r[j] in WithoutId(s[1..], id) && r[j] == WithoutId(s[1..], id)[j - 1];
          }
        }
      }
    }
  }

  /** After a toggle the drink is selected exactly when it was not; other ids keep their state. */
  lemma ToggleSelection(s: seq<Drink>, d: Drink, x: string)
    ensures IsDrinkSelected(Toggle(s, d), x) <==>
      if x == d.id then !IsDrinkSelected(s, x) else IsDrinkSelected(s, x)
  {
    if IsDrinkSelected(s, d.id) {
      WithoutIdSelection(s, d.id, x);
    } else {
      assert (s + [d])[|s|].id == d.id;
      if IsDrinkSelected(s + [d], x) && x != d.id {
        var i :| 0 <= i < |s + [d]| && (s + [d])[i].id == x;
        assert i < |s| && s[i].id == x;
      }
      if IsDrinkSelected(s, x) {
        var i :| 0 <= i < |s| && s[i].id == x;
        assert (s + [d])[i].id == x;
      }
    }
  }

  /** A toggle keeps "no two selected drinks share an id". */
  lemma ToggleKeepsDistinct(s: seq<Drink>, d: Drink)
    requires DistinctDrinkIds(s)
    ensures DistinctDrinkIds(Toggle(s, d))
  {
    if IsDrinkSelected(s, d.id) {
      WithoutIdKeepsDistinct(s, d.id);
    }
  }

  /** A toggle leaves the other drinks, and their relative order, unchanged. */
  lemma ToggleKeepsOthers(s: seq<Drink>, d: Drink)
    ensures WithoutId(Toggle(s, d), d.id) == WithoutId(s, d.id)
  {
    var p := (x: Drink) => x.id != d.id;
    if IsDrinkSelected(s, d.id) {
      FilterFilter(s, p, p, p);
    } else {
      FilterConcat(s, [d], p);
      assert Filter([d], p) == [];
    }
  }

  /** Toggling an unselected drink twice restores the selection exactly. */
  lemma ToggleTwiceUnselected(s: seq<Drink>, d: Drink)
    requires !IsDrinkSelected(s, d.id)
    ensures Toggle(Toggle(s, d), d) == s
  {
    ToggleSelection(s, d, d.id);
    ToggleKeepsOthers(s, d);
    WithoutIdAbsent(s, d.id);
  }

  /** Toggling a selected drink twice moves it to the end of the selection. */
  lemma ToggleTwiceSelected(s: seq<Drink>, d: Drink)
    requires IsDrinkSelected(s, d.id)
    ensures Toggle(Toggle(s, d), d) == WithoutId(s, d.id) + [d]
  {
    ToggleSelection(s, d, d.id);
  }

  /** `seats.filter(seat => seat.area === area)`: one area's seats, in registry order. */
  function AreaSeats(seats: seq<Seat>, area: string): seq<Seat>
  {
    Filter(seats, (s: Seat) => s.area == Some(area))
  }

  /** A seat is listed under an area exactly when it belongs to that area. */
  lemma AreaSeatsMembership(seats: seq<Seat>, area: string, s: Seat)
    ensures s in AreaSeats(seats, area) <==> s in seats && s.area == Some(area)
    ensures IsSubsequence(AreaSeats(seats, area), seats)
  {
    FilterMembership(seats, (x: Seat) => x.area == Some(area), s);
    FilterIsSubsequence(seats, (x: Seat) => x.area == Some(area));
  }

  lemma AreaSeatsConcat(x: seq<Seat>, y: seq<Seat>, area: string)
    ensures AreaSeats(x + y, area) == AreaSeats(x, area) + AreaSeats(y, area)
  {
    FilterConcat(x, y, (s: Seat) => s.area == Some(area));
  }

  lemma GridSeatArea(seats: seq<Seat>, k: nat)
    requires IsGrid(seats) && k < SeatCount
    ensures seats[k].area == Some(Areas[k / 12])
  {
    assert |Layouts(seats)| == |Grid()|;
    GridAt(seats, k);
  }

  lemma AreasDistinct(a: nat, b: nat)
    requires a < |Areas| && b < |Areas| && a != b
    ensures Areas[a] != Areas[b]
  {
  }

  lemma BlockOf(k: nat, a: nat)
    requires a < |Areas|
    ensures k < 12 * a ==> k / 12 < a
    ensures 12 * a <= k < 12 * a + 12 ==> k / 12 == a
    ensures 12 * a + 12 <= k ==> k / 12 > a
  {
  }

  /** A stretch of the grid lying outside block `a` lists nothing under area `a`. */
  lemma AreaSeatsOutside(seats: seq<Seat>, lo: nat, hi: nat, a: nat)
    requires IsGrid(seats) && lo <= hi <= |seats| && a < |Areas|
    requires hi <= 12 * a || 12 * a + 12 <= lo
    ensures AreaSeats(seats[lo..hi], Areas[a]) == []
    ensures hi == |seats| ==> AreaSeats(seats[lo..], Areas[a]) == []
  {
    var part := seats[lo..hi];
    forall i | 0 <= i < |part| ensures part[i].area != Some(Areas[a]) {
      GridSeatArea(seats, lo + i);
      BlockOf(lo + i, a);
      AreasDistinct((lo + i) / 12, a);
    }
    FilterNone(part, (s: Seat) => s.area == Some(Areas[a]));
    if hi == |seats| {
      assert part == seats[lo..];
    }
  }

  /** Block `a` of the grid lies wholly in area `a`. */
  lemma AreaSeatsInside(seats: seq<Seat>, a: nat)
    requires IsGrid(seats) && a < |Areas|
    ensures AreaSeats(seats[12 * a .. 12 * a + 12], Areas[a]) == seats[12 * a .. 12 * a + 12]
  {
    var lo := 12 * a;
    var block := seats[lo..lo + 12];
    forall i | 0 <= i < |block| ensures block[i].area == Some(Areas[a]) {
      GridSeatArea(seats, lo + i);
      BlockOf(lo + i, a);
    }
    FilterAll(block, (s: Seat) => s.area == Some(Areas[a]));
  }

  /** On the registry's grid, area `a` lists exactly the twelve seats of block `a`, in order. */
  lemma AreaSeatsOfGrid(seats: seq<Seat>, a: nat)
    requires IsGrid(seats) && a < |Areas|
    ensures AreaSeats(seats, Areas[a]) == seats[12 * a .. 12 * a + 12]
  {
    var lo := 12 * a;
    var before, block, after := seats[..lo], seats[lo..lo + 12], seats[lo + 12..];
    SplitThree(seats, lo, lo + 12);
    AreaSeatsConcat(before + block, after, Areas[a]);
    AreaSeatsConcat(before, block, Areas[a]);
    AreaSeatsOutside(seats, 0, lo, a);
    assert seats[0..lo] == before;
    AreaSeatsInside(seats, a);
    AreaSeatsOutside(seats, lo + 12, |seats|, a);
  }

  /** A seat listed under an area is a seat of the generated grid. */
  lemma ListedSeatIsGridSeat(seats: seq<Seat>, area: string, seat: Seat)
    requires IsGrid(seats) && seat in AreaSeats(seats, area)
    ensures seat.id in GridIdSet()
  {
    AreaSeatsMembership(seats, area, seat);
    GridIds(seats);
  }

  /** `name.split("-")[1]`: the seat number shown on a button; absent without a `-`. */
  function SeatLabel(name: string): Option<string>
  {
    var parts := Split(name, '-');
    if |parts| > 1 then Some(parts[1]) else None
  }

  /** A name made of a dash-free area, `-` and a dash-free number labels its button with that number. */
  lemma LabelOfName(area: string, number: string)
    requires '-' !in area && '-' !in number
    ensures SeatLabel(area + "-" + number) == Some(number)
  {
    SplitAfterPart(area, '-', number);
    assert Split(number, '-') == [number];
  }

  /** A grid seat's button shows its two-digit number; area, `-` and number rebuild the name. */
  lemma GridSeatLabel(k: nat)
    requires k < SeatCount
    ensures SeatLabel(GridSeat(k).name) == Some(Pad2(k % 12 + 1))
    ensures Areas[k / 12] + "-" + SeatLabel(GridSeat(k).name).value == GridSeat(k).name
  {
    var a, n := k / 12, k % 12 + 1;
    assert GridSeat(k).name == Areas[a] + "-" + Pad2(n);
    Pad2TwoDigits(n);
    DigitCharCode(n / 10);
    DigitCharCode(n % 10);
    assert '-' !in Pad2(n);
    assert '-' !in Areas[a];
    LabelOfName(Areas[a], Pad2(n));
  }

  /** The drawer's state: its own seat registry and the current selections. */
  class CheckInSession {
    const registry: SeatRegistry
    var selectedDrinks: seq<Drink>
    var selectedSeat: Option<Seat>

    /** The selection has distinct ids; a selected seat is a grid seat that was free when clicked. */
    ghost predicate Valid()
      reads this, registry, registry.seats
    {
      registry.Valid() &&
      DistinctDrinkIds(selectedDrinks) &&
      (selectedSeat.Some? ==> !selectedSeat.value.isOccupied && selectedSeat.value.id in GridIdSet())
    }

    /** The confirm button is enabled exactly when a seat is selected. */
    predicate ConfirmEnabled()
      reads this
    {
      selectedSeat.Some?
    }

    constructor ()
      ensures Valid() && fresh(registry) && fresh(registry.seats)
      ensures selectedDrinks == [] && selectedSeat == None
    {
      registry := new SeatRegistry();
      selectedDrinks := [];
      selectedSeat := None;
    }

    /** A click on a drink card. */
    method ToggleDrink(d: Drink)
      requires Valid()
      modifies this`selectedDrinks
      ensures Valid()
      ensures selectedDrinks == Toggle(old(selectedDrinks), d)
    {
      ToggleKeepsDistinct(selectedDrinks, d);
      selectedDrinks := Toggle(selectedDrinks, d);
    }

    /** A click on the `p`-th seat button of area `a`: ignored when that seat is occupied. */
    method ClickSeat(a: nat, p: nat)
      requires Valid() && a < |Areas| && p < |AreaSeats(registry.seats[..], Areas[a])|
      modifies this`selectedSeat
      ensures Valid()
      ensures var seat := AreaSeats(registry.seats[..], Areas[a])[p];
        selectedSeat == if seat.isOccupied then old(selectedSeat) else Some(seat)
    {
      var seat := AreaSeats(registry.seats[..], Areas[a])[p];
      if !seat.isOccupied {
        ListedSeatIsGridSeat(registry.seats[..], Areas[a], seat);
        selectedSeat := Some(seat);
      }
    }

    /**
     * `handleComplete`: occupies the selected seat (if any), hands the
     * selection to the host and clears it. The registry's flags follow once
     * the host runs its sync effect.
     */
    method Complete() returns (drinks: seq<Drink>, seat: Option<Seat>)
      requires Valid()
      modifies this`selectedDrinks, this`selectedSeat, registry`occupied
      ensures Valid()
      ensures drinks == old(selectedDrinks) && seat == old(selectedSeat)
      ensures registry.occupied ==
        if seat.Some? then old(registry.occupied) + {seat.value.id} else old(registry.occupied)
      ensures selectedDrinks == [] && selectedSeat == None
    {
      if selectedSeat.Some? {
        registry.Occupy(selectedSeat.value.id);
      }
      drinks, seat := selectedDrinks, selectedSeat;
      selectedDrinks := [];
      selectedSeat := None;
    }

    /**
     * `handleComplete` followed by the registry's sync effect, as the next
     * render runs it: the chosen seat, if any, is then shown as occupied.
     */
    method CompleteAndSync() returns (drinks: seq<Drink>, seat: Option<Seat>)
      requires Valid()
      modifies this`selectedDrinks, this`selectedSeat, registry`occupied, registry.seats
      ensures Valid() && registry.Synced()
      ensures drinks == old(selectedDrinks) && seat == old(selectedSeat)
      ensures registry.occupied ==
        if seat.Some? then old(registry.occupied) + {seat.value.id} else old(registry.occupied)
      ensures seat.Some? ==> registry.ShownOccupied(seat.value.id)
      ensures selectedDrinks == [] && selectedSeat == None
    {
      drinks, seat := Complete();
      registry.Sync();
    }

    /** `handleCancel`: clears the selection; the registry is untouched. */
    method Cancel()
      requires Valid()
      modifies this`selectedDrinks, this`selectedSeat
      ensures Valid()
      ensures selectedDrinks == [] && selectedSeat == None
    {
      selectedDrinks := [];
      selectedSeat := None;
    }
  }
}
