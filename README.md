# RealtyCheckin — verified model of the check-in kiosk core

This project models the in-memory logic behind the reception kiosk of a sales
centre. It covers five pieces:

- the shared record and enumeration types;
- the seat registry, a fixed grid of 36 seats in areas A区, B区 and C区. It keeps a set of occupied ids, occupy/release operations, an effect that re-derives each seat's flag from the set, and a simulated background tick;
- the check-in drawer: a drink catalog toggled in and out of a selection, seats grouped by area, and a session that completes or cancels;
- the drink option dialog: temperature and sweetness pickers and a quantity counter with a floor of 1;
- the customer list (pending and processed tabs, search, counters) and the customer detail panel (profile form, consultant fallback, success message).

Layout, one module per file:

- `Wrappers.dfy`: `Option`.
- `Seqs.dfy`: a generic `Filter` and its lemmas (membership, order via `IsSubsequence`, composition, concatenation, complement lengths).
- `Strings.dfy`: decimal printing, `padStart`, `indexOf`, `split` and `join`, with the round trip that splitting a join gives back the parts.
- `Types.dfy`: the data model. Each string-literal union becomes a closed datatype with a parser.
- `SeatStatus.dfy`: `GenerateSeats`, `InitialOccupied` and the class `SeatRegistry`. Its fields are the seat array and the occupied set.
- `CheckInDrawer.dfy`: the catalog, `Toggle`, area grouping, seat labels and the class `CheckInSession`.
- `DrinkSelectionDialog.dfy`: the class `DrinkDialog` and the counter algebra `Apply`.
- `CustomerList.dfy`: `FilteredCustomers`, `PendingCount` and `ProcessedCount`, all pure.
- `CustomerDetail.dfy`: the form and message functions, and the class `CustomerDetailView`, which owns a drawer session.

Randomness becomes parameters or nondeterministic choice:

- The tick takes the outcome of its two coin-and-draw steps as arguments.
- The initial occupancy picks each new id with `:|`.

React effects become explicit methods that the host calls after the state they depend on changes. `SeatRegistry.Sync` is the occupancy effect, and `CustomerDetailView.SelectCustomer` runs the form reset.

Two facts about the code shape the contracts:

- `occupySeat` adds any string to the set (src/hooks/useSeatStatus.ts:91-93). It does not reject an unknown id; an unknown id simply marks no seat.
- `DrinkOrderItem.quantity` has no lower bound in the type (src/types/index.ts:40).

## Model

| member | source | states |
|---|---|---|
| `Types.ParseGender` | src/types/index.ts:22 | a string is a gender exactly when it is `male`, `female` or the empty "unset" value; the parsed value prints back to the same string, and every other string is refused |
| `Types.ParseTemperature` | src/types/index.ts:24 | exactly the five texts 常温, 热饮, 标准冰, 少冰, 去冰 are temperatures, each read back to itself; all other strings are refused |
| `Types.ParseSweetness` | src/types/index.ts:26 | exactly the three texts 无糖, 少糖, 标准糖 are sweetness levels; all other strings are refused |
| `Types.ParseCheckInStatus` | src/types/index.ts:15-20 | exactly the five check-in kinds are statuses; all other strings are refused |
| `SeatStatus.SeatId` | src/hooks/useSeatStatus.ts:12-13 | the id and the name of seat `n` of area `a`: the area, `-`, and `n` padded to two digits with `0`; `SeatIdInjective` proves that different (area, number) pairs give different ids |
| `SeatStatus.GridSeat` | src/hooks/useSeatStatus.ts:11-16 | the `k`-th pushed seat: area `k / 12`, number `k % 12 + 1`, id equal to name, area set, free; `GridSeatShape` states its shape |
| `SeatStatus.Grid` | src/hooks/useSeatStatus.ts:5-21 | the 36 seats `generateSeats` returns, in push order; `GenerateSeats` is proved to build exactly this list |
| `SeatStatus.GenerateSeats` | src/hooks/useSeatStatus.ts:5-21 | the nested loops return exactly the 36-seat grid, area-major (A区, B区, C区) with numbers 1..12 in each area, and no two seats share an id |
| `SeatStatus.PushArea` | src/hooks/useSeatStatus.ts:10-17 | the inner loop for one area extends the grid's first `12 * a` seats by exactly the next twelve: numbers 1 to 12 of area `a`, in order |
| `SeatStatus.GridSeatShape` | src/hooks/useSeatStatus.ts:11-16 | every generated seat has id = name = area + `-` + the two-digit number (five characters, `-` at index 2), carries its area and starts free |
| `SeatStatus.SeatIdInjective` | src/hooks/useSeatStatus.ts:12-13 | two (area, number below 100) pairs print to the same id only if they are equal |
| `SeatStatus.GridIdsDistinct` | src/hooks/useSeatStatus.ts:9-18 | two different positions of the generated list never carry the same id |
| `SeatStatus.IdSetSize` | src/hooks/useSeatStatus.ts:26-28 | a list with distinct ids has as many ids as seats, so the draw loop can always find an id not yet drawn |
| `SeatStatus.InitialOccupied` | src/hooks/useSeatStatus.ts:24-34 | the initial occupied set holds only ids of the given seats and has exactly a fifth of them, rounded down (7 of 36) |
| `SeatStatus.GridIds` | src/hooks/useSeatStatus.ts:37-40 | every seat list with the generated layout has exactly the generated ids, so the two independently generated lists agree |
| `SeatStatus.InitialState` | src/hooks/useSeatStatus.ts:37-41 | the two state initialisers give a seat list with the generated layout and an occupied set of exactly 7 ids of that grid |
| `SeatStatus.WithOccupancy` | src/hooks/useSeatStatus.ts:82-88 | re-deriving the flags keeps the length and every seat's id, name, area and position, and sets each flag to membership of its id in the occupied set |
| `SeatStatus.AvailableSeats` | src/hooks/useSeatStatus.ts:58 | a seat is available exactly when it is in the layout and its id is not occupied |
| `SeatStatus.TickStep` | src/hooks/useSeatStatus.ts:56-73 | one tick of the interval: the drawn occupied id (if the first coin came up) leaves the set, then the drawn seat among those free before the release (if the second coin came up) joins it; `TickBounds` bounds the change |
| `SeatStatus.TickBounds` | src/hooks/useSeatStatus.ts:56-73 | a tick removes at most one id, and only the drawn occupied one; it adds at most one id, only the drawn seat that was free before the tick and belongs to the grid; it never keeps the id it released |
| `SeatStatus.SeatRegistry.constructor` | src/hooks/useSeatStatus.ts:36-51 | the registry starts with the generated grid, flags in agreement with the occupied set, and an occupied set of 7 grid ids |
| `SeatStatus.SeatRegistry.Sync` | src/hooks/useSeatStatus.ts:44-51 | the effect loop rewrites the seat array to `WithOccupancy` of the current set, keeps the grid layout and leaves every flag in agreement with the set |
| `SeatStatus.SeatRegistry.Occupy` | src/hooks/useSeatStatus.ts:91-93 | `occupySeat` adds exactly that id and changes no other membership, so repeating it changes nothing |
| `SeatStatus.SeatRegistry.Release` | src/hooks/useSeatStatus.ts:96-102 | `releaseSeat` removes exactly that id and changes no other membership, so repeating it changes nothing |
| `SeatStatus.SeatRegistry.Tick` | src/hooks/useSeatStatus.ts:55-75 | the interval callback replaces the occupied set by `TickStep` of the old set and the drawn outcomes, with the free seats computed before the release |
| `SeatStatus.SeatRegistry.OccupyThenRelease` | src/hooks/useSeatStatus.ts:90-102 | occupying and then releasing a grid seat (with the effect after each) leaves that seat shown as free and the set without its id |
| `CheckInDrawer.CatalogWellFormed` | src/components/CheckInDrawer.tsx:17-27 | the catalog has nine drinks with distinct ids, each with an icon and a positive price |
| `CheckInDrawer.WithoutId` | src/components/CheckInDrawer.tsx:66 | `prev.filter(d => d.id !== id)`: the selection without the drinks carrying that id; `WithoutIdSelection` states which ids remain |
| `CheckInDrawer.Toggle` | src/components/CheckInDrawer.tsx:62-71 | `toggleDrink`: a selected drink is filtered out, an unselected one is appended; `ToggleSelection`, `ToggleKeepsOthers` and the two toggle-twice lemmas state its effect |
| `CheckInDrawer.IsDrinkSelected` | src/components/CheckInDrawer.tsx:73-75 | the drink test holds exactly when some selected drink has the id |
| `CheckInDrawer.WithoutIdSelection` | src/components/CheckInDrawer.tsx:66 | after filtering out an id, an id is selected exactly when it is a different id that was selected before |
| `CheckInDrawer.ToggleSelection` | src/components/CheckInDrawer.tsx:62-71 | after a toggle the drink's id is selected exactly when it was not before, and every other id keeps its state |
| `CheckInDrawer.ToggleKeepsDistinct` | src/components/CheckInDrawer.tsx:64-68 | a toggle keeps "no two selected drinks share an id" |
| `CheckInDrawer.ToggleKeepsOthers` | src/components/CheckInDrawer.tsx:64-68 | a toggle leaves the other drinks and their relative order unchanged |
| `CheckInDrawer.ToggleTwiceUnselected` | src/components/CheckInDrawer.tsx:62-71 | toggling a drink that is not selected twice restores the selection exactly |
| `CheckInDrawer.ToggleTwiceSelected` | src/components/CheckInDrawer.tsx:62-71 | toggling a selected drink twice removes it and appends it again at the end, so the order is restored only when it was last |
| `CheckInDrawer.AreaSeats` | src/components/CheckInDrawer.tsx:160 | the registry seats whose area is the given one, in registry order; `AreaSeatsMembership` and `AreaSeatsOfGrid` state which seats these are |
| `CheckInDrawer.AreaSeatsMembership` | src/components/CheckInDrawer.tsx:160 | a seat is listed under an area exactly when it is a registry seat with that area, and the listing keeps registry order |
| `CheckInDrawer.AreaSeatsOfGrid` | src/components/CheckInDrawer.tsx:159-160 | on the registry grid, area `a` lists exactly the twelve seats of block `a`, in order |
| `CheckInDrawer.ListedSeatIsGridSeat` | src/components/CheckInDrawer.tsx:165-172 | any seat a button can show belongs to the generated grid |
| `CheckInDrawer.SeatLabel` | src/components/CheckInDrawer.tsx:184 | the text after the first `-` of a seat name, up to the next `-`, absent when the name has no `-`; `GridSeatLabel` gives its value on every grid seat |
| `CheckInDrawer.GridSeatLabel` | src/components/CheckInDrawer.tsx:184 | a grid seat's button shows its two-digit number (the part after `-`), and area + `-` + label rebuilds the name |
| `CheckInDrawer.CheckInSession.constructor` | src/components/CheckInDrawer.tsx:42-44 | a new session has its own registry, no drinks and no seat |
| `CheckInDrawer.CheckInSession.ToggleDrink` | src/components/CheckInDrawer.tsx:62-71 | a click on a drink card replaces the selection by its toggle and keeps the ids distinct |
| `CheckInDrawer.CheckInSession.ClickSeat` | src/components/CheckInDrawer.tsx:169-174 | a click on an occupied seat changes nothing; a click on a free seat replaces the selection; the registry is never touched |
| `CheckInDrawer.CheckInSession.Complete` | src/components/CheckInDrawer.tsx:46-54 | the selected seat's id is added to the occupied set only when a seat is selected; the current drinks and seat are emitted; both are then cleared |
| `CheckInDrawer.CheckInSession.CompleteAndSync` | src/components/CheckInDrawer.tsx:46-54 | completion followed by the registry's sync effect: the emitted seat, when there is one, is then shown as occupied and every flag agrees with the set |
| `CheckInDrawer.CheckInSession.Cancel` | src/components/CheckInDrawer.tsx:56-60 | cancelling clears drinks and seat and leaves the registry untouched |
| `DrinkSelectionDialog.OptionsListEveryValueOnce` | src/components/DrinkSelectionDialog.tsx:13-14 | every temperature and every sweetness has exactly one button |
| `DrinkSelectionDialog.Decreased` | src/components/DrinkSelectionDialog.tsx:53-57 | `handleDecrease`: one less above 1, unchanged at or below 1; `DecreaseDisabledIffNoEffect` relates it to the disabled button |
| `DrinkSelectionDialog.Apply` | src/components/DrinkSelectionDialog.tsx:53-61 | the quantity after a series of minus and plus presses; `ApplyKeepsFloor`, `DecreasesClamp` and `IncreasesUnbounded` state its value |
| `DrinkSelectionDialog.DecreaseDisabledIffNoEffect` | src/components/DrinkSelectionDialog.tsx:139 | the minus button is disabled exactly when pressing it would not change the quantity |
| `DrinkSelectionDialog.ApplyKeepsFloor` | src/components/DrinkSelectionDialog.tsx:53-61 | from any quantity of at least 1, no series of minus and plus presses takes it below 1 |
| `DrinkSelectionDialog.DecreasesClamp` | src/components/DrinkSelectionDialog.tsx:53-57 | `n` minus presses lower the quantity by `n`, but never below 1 |
| `DrinkSelectionDialog.IncreasesUnbounded` | src/components/DrinkSelectionDialog.tsx:59-61 | `n` plus presses add exactly `n`: there is no upper bound |
| `DrinkSelectionDialog.DrinkDialog.constructor` | src/components/DrinkSelectionDialog.tsx:31-37 | an absent prop defaults to 标准冰, 标准糖 and 1, and the state starts at the initial values |
| `DrinkSelectionDialog.DrinkDialog.Open` | src/components/DrinkSelectionDialog.tsx:40-46 | opening a closed dialog resets temperature, sweetness and quantity to the initial values; rendering an already open dialog as open keeps the current choice |
| `DrinkSelectionDialog.DrinkDialog.ChooseTemperature` | src/components/DrinkSelectionDialog.tsx:96 | a temperature button sets exactly the temperature |
| `DrinkSelectionDialog.DrinkDialog.ChooseSweetness` | src/components/DrinkSelectionDialog.tsx:118 | a sweetness button sets exactly the sweetness |
| `DrinkSelectionDialog.DrinkDialog.Decrease` | src/components/DrinkSelectionDialog.tsx:53-57 | decrements only above 1 and keeps the dialog's floor |
| `DrinkSelectionDialog.DrinkDialog.Increase` | src/components/DrinkSelectionDialog.tsx:59-61 | adds exactly 1 |
| `DrinkSelectionDialog.DrinkDialog.Confirm` | src/components/DrinkSelectionDialog.tsx:48-51 | the current (temperature, sweetness, quantity) is reported exactly once and the dialog closes |
| `DrinkSelectionDialog.DrinkDialog.Cancel` | src/components/DrinkSelectionDialog.tsx:192 | cancelling closes the dialog without reporting anything |
| `CustomerList.Lower` | src/components/CustomerList.tsx:30-32 | `toLowerCase` keeps the length, leaves no capital letter, and changes a character exactly when it is a capital, which becomes a small letter; `LowerIdempotent` and `SearchIgnoresQueryCase` build on it |
| `CustomerList.Trim` | src/components/CustomerList.tsx:29 | `trim()`: leading and trailing white space removed; `TrimEmptyIffBlank` says when nothing is left |
| `CustomerList.TrimEmptyIffBlank` | src/components/CustomerList.tsx:29 | a query trims to nothing exactly when every character is white space |
| `CustomerList.FilteredCustomers` | src/components/CustomerList.tsx:20-38 | the tab filter, then the search when the trimmed query is non-empty; `FilteredCustomersMembership` and `FilteredCustomersIsSubsequence` state which customers it lists and in what order |
| `CustomerList.FilteredIsOneFilter` | src/components/CustomerList.tsx:21-35 | the tab filter followed by the optional search equals one filter by the combined test |
| `CustomerList.FilteredCustomersMembership` | src/components/CustomerList.tsx:20-38 | a customer is listed exactly when it is in the tab (pending: `isProcessed` absent or false; processed: true) and, for a non-blank query, its lower-cased name or its phone contains the lower-cased, untrimmed query |
| `CustomerList.FilteredCustomersIsSubsequence` | src/components/CustomerList.tsx:20-38 | the listed customers keep the original order |
| `CustomerList.BlankQueryKeepsTab` | src/components/CustomerList.tsx:29 | a white-space query lists exactly the tab's customers |
| `CustomerList.SearchNarrows` | src/components/CustomerList.tsx:31-34 | a query only narrows the tab's unsearched list |
| `CustomerList.SearchIgnoresQueryCase` | src/components/CustomerList.tsx:30 | a query and its lower-cased form list the same customers |
| `CustomerList.PendingCount` | src/components/CustomerList.tsx:40 | the number of customers that are not processed |
| `CustomerList.ProcessedCount` | src/components/CustomerList.tsx:41 | the number of processed customers; `CountsCoverList` proves the two counts sum to the list length |
| `CustomerList.CountsCoverList` | src/components/CustomerList.tsx:40-41 | the pending and processed counts add up to the number of customers |
| `CustomerDetail.AgeRangesDistinct` | src/components/CustomerDetail.tsx:15-19 | the twelve age labels are pairwise different, so at most one age button is highlighted |
| `CustomerDetail.InitialForm` | src/components/CustomerDetail.tsx:37-43 | the form the reset effect builds from a customer; `InitialFormKeepsProfile` states every field |
| `CustomerDetail.FormFor` | src/components/CustomerDetail.tsx:27-33 | the form's first value, from the customer or blank; `BlankForm` states the blank case |
| `CustomerDetail.InitialFormKeepsProfile` | src/components/CustomerDetail.tsx:37-43 | the derived form copies name, gender and occupation, with gender unset and occupation `""` when missing, clears the age, and names the customer's consultant id unless the consultant is missing or has an empty id, in which case it names the default consultant `1` |
| `CustomerDetail.BlankForm` | src/components/CustomerDetail.tsx:27-33 | with no customer the form is blank except for consultant id `1` |
| `CustomerDetail.ConsultantIdMatchesShown` | src/components/CustomerDetail.tsx:42-77 | the form's consultant id equals the shown consultant's id exactly unless the customer's consultant has an empty id |
| `CustomerDetail.CurrentConsultant` | src/components/CustomerDetail.tsx:77 | the customer's consultant when there is one, else the default consultant; `ShownConsultant` and `ConsultantIdMatchesShown` relate it to the form |
| `CustomerDetail.ShownConsultant` | src/components/CustomerDetail.tsx:77 | the shown consultant is the customer's own when present, otherwise the default consultant with id `1` |
| `CustomerDetail.DrinkText` | src/components/CustomerDetail.tsx:55 | the drink part of the message: the lead-in and the names joined by `、`, or nothing |
| `CustomerDetail.SeatText` | src/components/CustomerDetail.tsx:56 | the seat part of the message: the lead-in and the seat name, or nothing |
| `CustomerDetail.Description` | src/components/CustomerDetail.tsx:59 | the fixed sentence, then the drink part, then the seat part; `BareDescription`, `DescriptionEndsWithSeat` and `DescriptionListsDrinks` state what it contains |
| `CustomerDetail.SuccessToast` | src/components/CustomerDetail.tsx:57-60 | the toast titled 签到成功 with that description |
| `CustomerDetail.DrinkTextEmptyIff` | src/components/CustomerDetail.tsx:55 | the drink part of the message is empty exactly when no drink was chosen |
| `CustomerDetail.SeatTextEmptyIff` | src/components/CustomerDetail.tsx:56 | the seat part of the message is empty exactly when no seat was chosen |
| `CustomerDetail.BareDescription` | src/components/CustomerDetail.tsx:59 | with neither drinks nor seat the description is the bare sentence |
| `CustomerDetail.DescriptionEndsWithSeat` | src/components/CustomerDetail.tsx:56-59 | with a seat, the description ends with that seat's name |
| `CustomerDetail.DescriptionListsDrinks` | src/components/CustomerDetail.tsx:55-59 | without a seat, and with names free of `、`, splitting the text after the fixed lead-in at `、` gives back the drink names in order |
| `CustomerDetail.CatalogNamesHaveNoSeparator` | src/components/CheckInDrawer.tsx:17-27 | no catalog drink name contains `、` |
| `CustomerDetail.DescriptionListsCatalogDrinks` | src/components/CustomerDetail.tsx:52-60 | for drinks taken from the catalog, the message lists exactly their names, in order |
| `CustomerDetail.CustomerDetailView.constructor` | src/components/CustomerDetail.tsx:24-33 | the panel starts with the form derived from the customer (or blank), the drawer closed, no toasts and an empty drawer session |
| `CustomerDetail.CustomerDetailView.SelectCustomer` | src/components/CustomerDetail.tsx:35-45 | passing the customer already selected changes nothing, so edits survive; a different customer rebuilds the form from scratch, discarding edits; a null customer leaves the form as it was; a customer that follows a null one gets a newly mounted drawer with its own registry and no selection, while otherwise the drawer is kept |
| `CustomerDetail.CustomerDetailView.EditThenReselect` | src/components/CustomerDetail.tsx:35-45 | editing the name and then selecting the same customer again keeps the edited form and the drawer |
| `CustomerDetail.CustomerDetailView.LeaveAndReturn` | src/components/CustomerDetail.tsx:65-75 | deselecting the customer and selecting one again unmounts and remounts the drawer, so no earlier drink or seat survives and confirm is disabled |
| `CustomerDetail.CustomerDetailView.SetName` | src/components/CustomerDetail.tsx:155 | changes the name and no other field |
| `CustomerDetail.CustomerDetailView.SetGender` | src/components/CustomerDetail.tsx:166-189 | the 男/女 buttons set `male`/`female` and no other field |
| `CustomerDetail.CustomerDetailView.SetAge` | src/components/CustomerDetail.tsx:199-203 | an age button sets one of the twelve ranges and no other field, so the age is always blank or a listed range |
| `CustomerDetail.CustomerDetailView.SetOccupation` | src/components/CustomerDetail.tsx:226 | changes the occupation and no other field |
| `CustomerDetail.CustomerDetailView.OpenDrawer` | src/components/CustomerDetail.tsx:261-267 | the confirm button, which exists only while a customer is selected, opens the drawer |
| `CustomerDetail.CustomerDetailView.CancelCheckIn` | src/components/CheckInDrawer.tsx:56-60 | cancelling clears the drawer's selection, closes it and changes no occupancy |
| `CustomerDetail.CustomerDetailView.ShowSuccess` | src/components/CustomerDetail.tsx:54-62 | the delayed callback raises exactly one toast titled 签到成功 whose description is built from the emitted drinks and seat, then closes the drawer |
| `CustomerDetail.CustomerDetailView.ConfirmCheckIn` | src/components/CustomerDetail.tsx:52-63 | with a seat chosen, the seat becomes occupied and is shown so; exactly one toast 签到成功 with the description of the chosen drinks and seat is raised; the selection is cleared and the drawer closes |

## Left out

- Probabilities of the tick and of the initial draw (`Math.random`): the tick takes the outcomes of its two coin-and-draw steps as parameters, and the initial set grows by a nondeterministic choice of a not-yet-drawn id. Redundant draws of an id already in the set change nothing and are not modelled.
- `SeatStatus.InitialOccupied`: the count is `|seats| / 5` in integers, which equals the source's floating-point `Math.floor(seats.length * 0.2)` for the 36-seat grid; other lengths are not compared.
- Timers: the 5-second interval and the 300 ms delay before the success toast are not modelled. The tick is an explicit method; the toast and the close happen at once.
- `CustomerDetail.CustomerDetailView.SelectCustomer`: React compares the customer prop by reference; the model compares customers by value. Customers carry distinct random ids and each lives once in the list state, so the two coincide for every selection the list can make.
- React's scheduling: an effect runs only when the host calls it (`SeatRegistry.Sync`, `CustomerDetailView.SelectCustomer`). Between a change to the occupied set and the sync, the seat flags are stale, as they are between renders in the source.
- The race between the background tick and a seat the user has selected but not confirmed is documented, not resolved. A tick may occupy the selected seat before confirmation; confirming then adds an id that is already present. The session only remembers that the seat was free when clicked.
- `toLowerCase` lower-cases only ASCII `A`–`Z`; other Unicode case mappings are not modelled. `trim` removes the ECMAScript white-space and line-terminator characters.
- Numbers (`age`, `budget`, `price`, `quantity`) are unbounded integers; floating-point values are not modelled.
- The drink dialog returns nothing when its `drink` prop is null; the model has no rendering, so that branch is absent.
- The drink dialog's initial values are constants of a `DrinkDialog`. The source also reruns the reset when an initial prop changes while the dialog is open; the model has no prop change, so that reset is not modelled.
- `src/App.tsx`, `src/hooks/useMockData.ts`, `src/components/PropertyHeader.tsx` and `src/components/CheckInSuccessDialog.tsx` are not part of this model: layout arithmetic, browser storage, random mock data and presentation only.
- Rendering, toast display, class names, avatars and the open/close plumbing other than the boolean flags.
