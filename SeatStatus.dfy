// The seat registry of the check-in drawer (src/hooks/useSeatStatus.ts): a
// fixed grid of 36 seats in three areas and the set of occupied seat ids. The
// hook's two state cells become the fields of `SeatRegistry`; the effect that
// re-derives every seat's `isOccupied` flag from the set is `Sync`, which the
// host runs after each change of the set. `Math.random` becomes parameters
// (the tick) or a nondeterministic choice (the initial occupancy).
module SeatStatus {
  import opened Wrappers
  import opened Types
  import opened Strings
  import opened Seqs

  const Areas: seq<string> := ["A区", "B区", "C区"]
  const SeatsPerArea: nat := 12
  const SeatCount: nat := 36

  /** `${area}-${String(n).padStart(2, '0')}`: the id and the name of seat `n` of an area. */
  function SeatId(a: nat, n: nat): string
    requires a < |Areas|
  {
    Areas[a] + "-" + Pad2(n)
  }

  /** The `k`-th seat `generateSeats` pushes: area-major, numbers 1..12 within an area. */
  function GridSeat(k: nat): Seat
    requires k < SeatCount
  {
    var a, n := k / 12, k % 12 + 1;
    Seat(SeatId(a, n), SeatId(a, n), Some(Areas[a]), false)
  }

  /** A seat with its occupancy flag cleared: what never changes after generation. */
  function Layout(s: Seat): Seat
  {
    s.(isOccupied := false)
  }

  predicate DistinctIds(s: seq<Seat>)
  {
    forall i, j :: 0 <= i < j < |s| ==> s[i].id != s[j].id
  }

  function IdSet(s: seq<Seat>): set<string>
  {
    set k | 0 <= k < |s| :: s[k].id
  }

  /** Every generated seat is named `<area>-<two digits>`, carries its area and starts free. */
  lemma GridSeatShape(k: nat)
    requires k < SeatCount
    ensures GridSeat(k).id == GridSeat(k).name == Areas[k / 12] + "-" + Pad2(k % 12 + 1)
    ensures GridSeat(k).area == Some(Areas[k / 12])
    ensures !GridSeat(k).isOccupied
    ensures |GridSeat(k).id| == 5 && GridSeat(k).id[2] == '-'
    ensures GridSeat(k).id[..2] == Areas[k / 12] && GridSeat(k).id[3..] == Pad2(k % 12 + 1)
  {
    Pad2TwoDigits(k % 12 + 1);
  }

  /** Different (area, number) pairs below 100 never print to the same id. */
  lemma SeatIdInjective(a: nat, n: nat, b: nat, m: nat)
    requires a < |Areas| && b < |Areas| && n < 100 && m < 100
    requires SeatId(a, n) == SeatId(b, m)
    ensures a == b && n == m
  {
    Pad2TwoDigits(n);
    Pad2TwoDigits(m);
    var x, y := SeatId(a, n), SeatId(b, m);
    assert |Areas[a]| == 2 && |Areas[b]| == 2;
    assert x[0] == Areas[a][0] && y[0] == Areas[b][0];
    assert x[3..] == Pad2(n) && y[3..] == Pad2(m);
    Pad2Injective(n, m);
  }

  /** No two generated seats share an id. */
  lemma GridIdsDistinct(j: nat, k: nat)
    requires j < SeatCount && k < SeatCount && j != k
    ensures GridSeat(j).id != GridSeat(k).id
  {
    if GridSeat(j).id == GridSeat(k).id {
      SeatIdInjective(j / 12, j % 12 + 1, k / 12, k % 12 + 1);
    }
  }

  lemma DivMod12(a: nat, j: nat)
    requires j < 12
    ensures (12 * a + j) / 12 == a && (12 * a + j) % 12 == j
  {
  }

  /** The seat pushed for number `n` of area `a` sits at position `12 * a + n - 1` of the grid. */
  lemma GridSeatOf(a: nat, n: nat)
    requires a < |Areas| && 1 <= n <= SeatsPerArea
    ensures 12 * a + n - 1 < SeatCount
    ensures GridSeat(12 * a + n - 1) == Seat(SeatId(a, n), SeatId(a, n), Some(Areas[a]), false)
  {
    var k := 12 * a + n - 1;
    DivMod12(a, n - 1);
    var b, m := k / 12, k % 12 + 1;
    assert b == a && m == n;
    assert GridSeat(k) == Seat(SeatId(b, m), SeatId(b, m), Some(Areas[b]), false);
  }

  /** Extending a prefix of `s` by the next element gives the next prefix. */
  lemma PrefixStep<T>(s: seq<T>, m: nat)
    requires m < |s|
    ensures s[..m] + [s[m]] == s[..m + 1]
  {
  }

  /** No two seats of the generated grid share an id. */
  lemma GridDistinct()
    ensures DistinctIds(Grid())
  {
    forall i, j | 0 <= i < j < SeatCount
      ensures Grid()[i].id != Grid()[j].id
    {
      GridIdsDistinct(i, j);
    }
  }

  /** The body of the `forEach` over the areas: pushes seats 1 to 12 of area `a`. */
  method PushArea(prefix: seq<Seat>, a: nat) returns (seats: seq<Seat>)
    requires a < |Areas| && prefix == Grid()[..12 * a]
    ensures seats == Grid()[..12 * a + 12]
  {
    seats := prefix;
    var i := 1;
    while i <= SeatsPerArea
      invariant 1 <= i <= SeatsPerArea + 1
      invariant |seats| == 12 * a + i - 1
      invariant seats == Grid()[..|seats|]
    {
      GridSeatOf(a, i);
      var seatName := SeatId(a, i);
      var seat := Seat(seatName, seatName, Some(Areas[a]), false);
      assert seat == Grid()[|seats|];
      PrefixStep(Grid(), |seats|);
      seats := seats + [seat];
      i := i + 1;
    }
  }

  /** `generateSeats`: pushes the seats of each area in turn, numbers 1 to 12. */
  method GenerateSeats() returns (seats: seq<Seat>)
    ensures seats == Grid()
    ensures DistinctIds(seats)
  {
    seats := [];
    var a := 0;
    while a < |Areas|
      invariant 0 <= a <= |Areas|
      invariant seats == Grid()[..12 * a]
    {
      seats := PushArea(seats, a);
      a := a + 1;
    }
    assert seats == Grid();
    GridDistinct();
  }

  /** Distinct ids: the id set is as large as the seat list. */
  lemma {:induction false} IdSetSize(s: seq<Seat>)
    requires DistinctIds(s)
    ensures |IdSet(s)| == |s|
  {
    if s != [] {
      var init := s[..|s| - 1];
      IdSetSize(init);
      assert IdSet(s) == IdSet(init) + {s[|s| - 1].id};
      assert s[|s| - 1].id !in IdSet(init);
    }
  }

  /**
   * `getInitialOccupiedSeats`: draws seats until a fifth of them (rounded down)
   * are occupied. A draw of an id already in the set changes nothing, so only
   * the draws that grow the set are modelled, as a nondeterministic choice.
   */
  method InitialOccupied(seats: seq<Seat>) returns (occupied: set<string>)
    requires DistinctIds(seats)
    ensures occupied <= IdSet(seats)
    ensures |occupied| == |seats| / 5
  {
    var count := |seats| / 5;
    occupied := {};
    IdSetSize(seats);
    while |occupied| < count
      invariant occupied <= IdSet(seats)
      invariant |occupied| <= count
      decreases count - |occupied|
    {
      if forall i :: 0 <= i < |seats| ==> seats[i].id in occupied {
        assert IdSet(seats) <= occupied;
        SubsetSize(IdSet(seats), occupied);
        assert false;
      }
      var idx :| 0 <= idx < |seats| && seats[idx].id !in occupied;
      occupied := occupied + {seats[idx].id};
    }
  }

  /** The seats with `isOccupied` re-derived from the occupied set (the sync effect). */
  function WithOccupancy(s: seq<Seat>, occupied: set<string>): (r: seq<Seat>)
    ensures |r| == |s|
    ensures forall k :: 0 <= k < |r| ==> Layout(r[k]) == Layout(s[k])
    ensures forall k :: 0 <= k < |r| ==> (r[k].isOccupied <==> s[k].id in occupied)
  {
    seq(|s|, k requires 0 <= k < |s| => s[k].(isOccupied := s[k].id in occupied))
  }

  /** `seats.filter(s => !occupied.has(s.id))`: the free seats, in grid order. */
  function AvailableSeats(layout: seq<Seat>, occupied: set<string>): (r: seq<Seat>)
    ensures forall s :: s in r <==> s in layout && s.id !in occupied
  {
    var free := (s: Seat) => s.id !in occupied;
    FilterMembershipAll(layout, free);
    Filter(layout, free)
  }

  /**
   * One tick of the simulation. `release` is the outcome of the first coin and
   * draw: `Some(id)` when the coin came up and `id` was drawn from the occupied
   * set. `occupy` is the second: `Some(i)` when the coin came up and the `i`-th
   * free seat was drawn. The free seats are computed before the release.
   */
  function TickStep(layout: seq<Seat>, occupied: set<string>, release: Option<string>, occupy: Option<nat>): set<string>
    requires release.Some? ==> release.value in occupied
    requires occupy.Some? ==> occupy.value < |AvailableSeats(layout, occupied)|
  {
    var available := AvailableSeats(layout, occupied);
    var afterRelease := if release.Some? then occupied - {release.value} else occupied;
    if occupy.Some? then afterRelease + {available[occupy.value].id} else afterRelease
  }

  /**
   * A tick frees at most one seat, and only an occupied one; it takes at most
   * one seat, only a seat of the grid that was free before the tick, and never
   * the seat it has just freed.
   */
  lemma TickBounds(layout: seq<Seat>, occupied: set<string>, release: Option<string>, occupy: Option<nat>)
    requires release.Some? ==> release.value in occupied
    requires occupy.Some? ==> occupy.value < |AvailableSeats(layout, occupied)|
    ensures var next := TickStep(layout, occupied, release, occupy);
      (forall id :: id in occupied && id !in next ==> release == Some(id)) &&
      (forall id :: id in next && id !in occupied ==>
         occupy.Some? && id == AvailableSeats(layout, occupied)[occupy.value].id && id in IdSet(layout)) &&
      (release.Some? ==> release.value !in next) &&
      |occupied - next| <= 1 && |next - occupied| <= 1
  {
    var next := TickStep(layout, occupied, release, occupy);
    var available := AvailableSeats(layout, occupied);
    if occupy.Some? {
      var taken := available[occupy.value];
      assert taken in available;
      assert taken in layout && taken.id !in occupied;
      var k :| 0 <= k < |layout| && layout[k] == taken;
      assert taken.id in IdSet(layout);
      SubsetSize(next - occupied, {taken.id});
    } else {
      SubsetSize(next - occupied, {});
    }
    if release.Some? {
      SubsetSize(occupied - next, {release.value});
    } else {
      SubsetSize(occupied - next, {});
    }
  }

  /** The seats `generateSeats` returns, in order. */
  function Grid(): (g: seq<Seat>)
    ensures |g| == SeatCount
  {
    seq(SeatCount, k requires 0 <= k < SeatCount => GridSeat(k))
  }

  function Layouts(s: seq<Seat>): (r: seq<Seat>)
    ensures |r| == |s|
  {
    seq(|s|, k requires 0 <= k < |s| => Layout(s[k]))
  }

  /** The generated grid, up to the occupancy flags. */
  ghost predicate IsGrid(s: seq<Seat>)
  {
    Layouts(s) == Grid()
  }

  lemma GridAt(s: seq<Seat>, k: nat)
    requires IsGrid(s) && k < |s|
    ensures |s| == SeatCount && Layout(s[k]) == GridSeat(k)
  {
    assert Layouts(s)[k] == Grid()[k];
  }

  lemma SameLayoutIsGrid(a: seq<Seat>, b: seq<Seat>)
    requires IsGrid(a) && |a| == |b|
    requires forall k :: 0 <= k < |a| ==> Layout(a[k]) == Layout(b[k])
    ensures IsGrid(b)
  {
    assert Layouts(a) == Layouts(b);
  }

  /** The ids of the generated seats. */
  ghost function GridIdSet(): set<string>
  {
    set k | 0 <= k < SeatCount :: GridSeat(k).id
  }

  /** Every grid has the same ids: those of the generated seats. */
  lemma GridIds(s: seq<Seat>)
    requires IsGrid(s)
    ensures IdSet(s) == GridIdSet()
  {
    forall k | 0 <= k < |s| ensures s[k].id == GridSeat(k).id {
      GridAt(s, k);
    }
    assert |s| == SeatCount by {
      assert |Layouts(s)| == |Grid()|;
    }
  }

  lemma GeneratedIsGrid(s: seq<Seat>)
    requires s == Grid()
    ensures IsGrid(s) && IdSet(s) == GridIdSet()
  {
    assert Layouts(s) == Grid();
    GridIds(s);
  }

  /**
   * The initialisers of the hook's two state cells: the seat list from one call
   * of `generateSeats`, and the occupied set drawn over a second, independent
   * call (the two agree on every id because generation is deterministic).
   */
  method InitialState() returns (layout: seq<Seat>, occupied: set<string>)
    ensures |layout| == SeatCount && IsGrid(layout)
    ensures occupied <= GridIdSet() && |occupied| == 7
  {
    layout := GenerateSeats();
    var initial := GenerateSeats();
    GeneratedIsGrid(layout);
    GeneratedIsGrid(initial);
    occupied := InitialOccupied(initial);
    assert |initial| == 36;
  }

  /** The hook's state: the seat list and the set of occupied ids. */
  class SeatRegistry {
    var seats: array<Seat>
    var occupied: set<string>

    /** The seat list is always the generated grid; only the flags move. */
    ghost predicate Valid()
      reads this, seats
    {
      IsGrid(seats[..])
    }

    /** Every flag agrees with the occupied set (after the sync effect has run). */
    predicate Synced()
      reads this, seats
    {
      forall k :: 0 <= k < seats.Length ==> (seats[k].isOccupied <==> seats[k].id in occupied)
    }

    /** Every seat carrying this id is shown as occupied. */
    predicate ShownOccupied(id: string)
      reads this, seats
    {
      forall k :: 0 <= k < seats.Length && seats[k].id == id ==> seats[k].isOccupied
    }

    /** The hook's first render: the two initialisers, then the mount effect. */
    constructor ()
      ensures Valid() && Synced() && fresh(seats)
      ensures occupied <= IdSet(seats[..])
      ensures |occupied| == SeatCount / 5 == 7
    {
      var layout, initialOccupied := InitialState();
      seats := new Seat[SeatCount](k requires 0 <= k < SeatCount => layout[k]);
      occupied := initialOccupied;
      new;
      assert seats[..] == layout;
      Sync();
      GridIds(seats[..]);
    }

    /** The effect on the occupied set: every seat's flag re-derived, nothing else changed. */
    method Sync()
      requires Valid()
      modifies seats
      ensures Valid() && Synced()
      ensures seats[..] == WithOccupancy(old(seats[..]), occupied)
    {
      ghost var before := seats[..];
      var occ := occupied;
      var k := 0;
      while k < seats.Length
        invariant 0 <= k <= seats.Length
        invariant forall j :: 0 <= j < k ==> seats[j] == before[j].(isOccupied := before[j].id in occ)
        invariant forall j :: k <= j < seats.Length ==> seats[j] == before[j]
      {
        var s := seats[k];
        seats[k] := s.(isOccupied := s.id in occ);
        k := k + 1;
      }
      assert seats[..] == WithOccupancy(before, occ);
      SameLayoutIsGrid(before, seats[..]);
    }

    /** `occupySeat(id)`: adds exactly `id` (any string; an unknown id marks no seat). */
    method Occupy(id: string)
      modifies this`occupied
      ensures occupied == old(occupied) + {id}
    {
      occupied := occupied + {id};
    }

    /** `releaseSeat(id)`: removes exactly `id`. */
    method Release(id: string)
      modifies this`occupied
      ensures occupied == old(occupied) - {id}
    {
      occupied := occupied - {id};
    }

    /** The interval callback: one step of the simulation with its random outcomes given. */
    method Tick(release: Option<string>, occupy: Option<nat>)
      requires Valid()
      requires release.Some? ==> release.value in occupied
      requires occupy.Some? ==> occupy.value < |AvailableSeats(seats[..], occupied)|
      modifies this`occupied
      ensures occupied == TickStep(seats[..], old(occupied), release, occupy)
    {
      var next := occupied;
      var available := AvailableSeats(seats[..], next);
      if release.Some? {
        next := next - {release.value};
      }
      if occupy.Some? {
        next := next + {available[occupy.value].id};
      }
      occupied := next;
    }

    /** Occupying then releasing a seat of the grid leaves it available after the sync. */
    method OccupyThenRelease(k: nat)
      requires Valid() && k < SeatCount
      modifies this`occupied, seats
      ensures Valid() && Synced()
      ensures !seats[k].isOccupied
      ensures occupied == old(occupied) - {seats[k].id}
    {
      var id := seats[k].id;
      Occupy(id);
      Sync();
      assert seats[k].isOccupied;
      Release(id);
      Sync();
    }
  }
}
