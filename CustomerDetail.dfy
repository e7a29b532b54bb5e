// The customer detail panel (src/components/CustomerDetail.tsx): the profile
// form filled from the selected customer, its field setters, the consultant
// shown when the customer has none, and the success message built when the
// check-in drawer completes. The 300 ms delay before the message is dropped:
// the message is emitted and the drawer closed in the same step.
module CustomerDetail {
  import opened Wrappers
  import opened Types
  import opened Strings
  import opened Seqs
  import opened SeatStatus
  import opened CheckInDrawer

  /** The twelve age-range buttons, in display order. */
  const AgeRanges: seq<string> := [
    "20岁以下", "20-25岁", "25-30岁", "30-35岁",
    "35-40岁", "40-45岁", "45-50岁", "50-55岁",
    "55-60岁", "60-65岁", "65-70岁", "70岁以上"
  ]

  /** Each age button carries its own label, so at most one of them is ever highlighted. */
  lemma AgeRangesDistinct(i: nat, j: nat)
    requires i < |AgeRanges| && j < |AgeRanges|
    ensures AgeRanges[i] == AgeRanges[j] <==> i == j
  {
    if i != j {
      var a, b := AgeRanges[i], AgeRanges[j];
      assert a[..2] != b[..2] || a[2] != b[2] || a[3] != b[3] || a[4] != b[4];
    }
  }

  /** The consultant shown, and whose id is used, when the customer has none. */
  const DefaultConsultant: Consultant :=
    Consultant("1", "孔忆", Some("https://ui-avatars.com/api/?name=孔忆&background=random&size=128"))

  /**
   * The form derived from a customer: name, gender and occupation copied with
   * `""` for a missing value, age always cleared, and the consultant's id
   * unless it is missing or empty, in which case the default consultant's id.
   */
  function InitialForm(c: Customer): CustomerFormData
  {
    CustomerFormData(
      c.name,
      if c.gender.Some? then c.gender.value else Unset,
      "",
      if c.occupation.Some? then c.occupation.value else "",
      Some(if c.consultant.Some? && c.consultant.value.id != "" then c.consultant.value.id else DefaultConsultant.id))
  }

  /** The form's first value, when no customer may be selected yet. */
  function FormFor(customer: Option<Customer>): CustomerFormData
  {
    match customer
    case Some(c) => InitialForm(c)
    case None => CustomerFormData("", Unset, "", "", Some(DefaultConsultant.id))
  }

  /** `customer.consultant || defaultConsultant`. */
  function CurrentConsultant(c: Customer): Consultant
  {
    if c.consultant.Some? then c.consultant.value else DefaultConsultant
  }

  /** A form whose age is unset or one of the twelve ranges. */
  predicate AgeAllowed(f: CustomerFormData)
  {
    f.age == "" || f.age in AgeRanges
  }

  /**
   * The derived form keeps the customer's recorded profile, with `""` for a
   * missing occupation, starts with the age unset, and names the customer's
   * consultant unless that consultant is missing or has an empty id, in which
   * case it names the default consultant `1`.
   */
  lemma InitialFormKeepsProfile(c: Customer)
    ensures InitialForm(c).name == c.name && InitialForm(c).age == ""
    ensures c.gender.Some? ==> InitialForm(c).gender == c.gender.value
    ensures c.gender.None? ==> InitialForm(c).gender == Unset
    ensures c.occupation.Some? ==> InitialForm(c).occupation == c.occupation.value
    ensures c.occupation.None? ==> InitialForm(c).occupation == ""
    ensures c.consultant.Some? && c.consultant.value.id != "" ==>
      InitialForm(c).consultantId == Some(c.consultant.value.id)
    ensures (c.consultant.None? || c.consultant.value.id == "") ==>
      InitialForm(c).consultantId == Some(DefaultConsultant.id) && DefaultConsultant.id == "1"
    ensures InitialForm(c).consultantId.Some? && InitialForm(c).consultantId.value != ""
    ensures AgeAllowed(InitialForm(c))
  {
  }

  /** With no customer the form is blank except for the default consultant id. */
  lemma BlankForm()
    ensures FormFor(None).name == "" && FormFor(None).gender == Unset
    ensures FormFor(None).occupation == "" && FormFor(None).age == ""
    ensures FormFor(None).consultantId == Some("1")
  {
  }

  /**
   * The form's consultant id and the consultant on screen agree except in one
   * case: a customer whose consultant has an empty id is shown that consultant
   * while the form names the default one.
   */
  lemma ConsultantIdMatchesShown(c: Customer)
    ensures InitialForm(c).consultantId == Some(CurrentConsultant(c).id) <==>
      !(c.consultant.Some? && c.consultant.value.id == "")
  {
  }

  /** Which consultant is shown: the customer's own exactly when there is one. */
  lemma ShownConsultant(c: Customer)
    ensures c.consultant.Some? ==> CurrentConsultant(c) == c.consultant.value
    ensures c.consultant.None? ==> CurrentConsultant(c) == DefaultConsultant && CurrentConsultant(c).id == "1"
  {
  }

  /** The names of the chosen drinks, in selection order. */
  function Names(drinks: seq<Drink>): (r: seq<string>)
    ensures |r| == |drinks|
    ensures forall i :: 0 <= i < |drinks| ==> r[i] == drinks[i].name
  {
    seq(|drinks|, i requires 0 <= i < |drinks| => drinks[i].name)
  }

  const SuccessTitle: string := "签到成功"
  const SuccessHead: string := "客户信息已成功确认签到"
  const DrinkLead: string := "，已选择饮品："
  const SeatLead: string := "，已选择座位："
  const NameSeparator: char := '、'

  /** The drink part of the message: empty without drinks, else the names joined by `、`. */
  function DrinkText(drinks: seq<Drink>): string
  {
    if |drinks| > 0 then DrinkLead + Join(Names(drinks), [NameSeparator]) else ""
  }

  /** The seat part of the message: empty without a seat, else the seat's name. */
  function SeatText(seat: Option<Seat>): string
  {
    match seat
    case Some(s) => SeatLead + s.name
    case None => ""
  }

  /** The toast's description: the fixed sentence, then the drink part, then the seat part. */
  function Description(drinks: seq<Drink>, seat: Option<Seat>): string
  {
    SuccessHead + DrinkText(drinks) + SeatText(seat)
  }

  datatype Toast = Toast(title: string, description: string)

  function SuccessToast(drinks: seq<Drink>, seat: Option<Seat>): Toast
  {
    Toast(SuccessTitle, Description(drinks, seat))
  }

  /** The drink part is empty exactly when no drink was chosen. */
  lemma DrinkTextEmptyIff(drinks: seq<Drink>)
    ensures DrinkText(drinks) == "" <==> drinks == []
  {
  }

  /** The seat part is empty exactly when no seat was chosen. */
  lemma SeatTextEmptyIff(seat: Option<Seat>)
    ensures SeatText(seat) == "" <==> seat.None?
  {
  }

  /** With neither drinks nor a seat the message is the bare sentence. */
  lemma BareDescription()
    ensures Description([], None) == SuccessHead
  {
  }

  /** With a seat, the message ends with that seat's name. */
  lemma DescriptionEndsWithSeat(drinks: seq<Drink>, s: Seat)
    ensures var d := Description(drinks, Some(s));
      |s.name| <= |d| && d[|d| - |s.name|..] == s.name
  {
    ConcatSuffix(SuccessHead + DrinkText(drinks), SeatLead, s.name);
  }

  /**
   * Without a seat, and with drink names free of `、`, the drink names can be
   * read back from the message, in order: the join loses nothing.
   */
  lemma {:induction false} DescriptionListsDrinks(drinks: seq<Drink>)
    requires drinks != []
    requires forall i :: 0 <= i < |drinks| ==> NameSeparator !in drinks[i].name
    ensures var d := Description(drinks, None);
      |SuccessHead + DrinkLead| <= |d| &&
      Split(d[|SuccessHead + DrinkLead|..], NameSeparator) == Names(drinks)
  {
    var names := Names(drinks);
    var joined := Join(names, [NameSeparator]);
    var d := Description(drinks, None);
    assert d == (SuccessHead + DrinkLead) + joined;
    assert d[|SuccessHead + DrinkLead|..] == joined;
    SplitJoin(names, NameSeparator);
  }

  /** No catalog drink's name contains the separator. */
  lemma CatalogNamesHaveNoSeparator(d: Drink)
    requires d in Catalog
    ensures NameSeparator !in d.name
  {
  }

  /** A check-in with catalog drinks and no seat lists exactly those drinks' names, in order. */
  lemma DescriptionListsCatalogDrinks(drinks: seq<Drink>)
    requires drinks != []
    requires forall i :: 0 <= i < |drinks| ==> drinks[i] in Catalog
    ensures var d := Description(drinks, None);
      |SuccessHead + DrinkLead| <= |d| &&
      Split(d[|SuccessHead + DrinkLead|..], NameSeparator) == Names(drinks)
  {
    forall i | 0 <= i < |drinks|
      ensures NameSeparator !in drinks[i].name
    {
      CatalogNamesHaveNoSeparator(drinks[i]);
    }
    DescriptionListsDrinks(drinks);
  }

  /**
   * The panel's state: the selected customer, the form, whether the drawer is
   * open, the drawer itself and the toasts raised so far. The drawer is only
   * mounted while a customer is selected; while there is none, `drawer` is the
   * session that the next customer replaces.
   */
  class CustomerDetailView {
    var customer: Option<Customer>
    var form: CustomerFormData
    var drawerOpen: bool
    var toasts: seq<Toast>
    var drawer: CheckInSession

    ghost predicate Valid()
      reads this, drawer, drawer.registry, drawer.registry.seats
    {
      AgeAllowed(form) && drawer.Valid()
    }

    constructor (c: Option<Customer>)
      ensures Valid() && fresh(drawer)
      ensures customer == c && form == FormFor(c)
      ensures !drawerOpen && toasts == []
      ensures drawer.selectedDrinks == [] && drawer.selectedSeat == None
    {
      customer := c;
      form := FormFor(c);
      drawerOpen := false;
      toasts := [];
      drawer := new CheckInSession();
    }

    /**
     * The customer prop is set. Passing the customer already selected is no
     * change, so nothing happens and edits survive. Otherwise the reset effect
     * rebuilds the form from a new customer, discarding every edit, and a null
     * customer leaves the form as it was. A null customer unmounts the drawer,
     * so a customer that follows one is given a newly mounted drawer: its own
     * seat registry and no selection. The drawer's open flag belongs to the
     * panel and survives.
     */
    method SelectCustomer(c: Option<Customer>)
      requires Valid()
      modifies this`customer, this`form, this`drawer
      ensures Valid()
      ensures customer == c
      ensures c == old(customer) ==> form == old(form) && drawer == old(drawer)
      ensures c != old(customer) ==> form == if c.Some? then InitialForm(c.value) else old(form)
      ensures old(customer).None? && c.Some? ==>
        fresh(drawer) && fresh(drawer.registry) && drawer.selectedDrinks == [] && drawer.selectedSeat == None
      ensures !(old(customer).None? && c.Some?) ==> drawer == old(drawer)
    {
      if c != customer {
        if customer.None? {
          drawer := new CheckInSession();
        }
        customer := c;
        if c.Some? {
          form := InitialForm(c.value);
        }
      }
    }

    /**
     * Deselecting the customer and selecting one again unmounts and remounts
     * the drawer: whatever was chosen before is gone and confirm is disabled.
     */
    method LeaveAndReturn(c: Customer)
      requires Valid()
      modifies this`customer, this`form, this`drawer
      ensures Valid() && customer == Some(c) && form == InitialForm(c)
      ensures fresh(drawer) && drawer.selectedDrinks == [] && !drawer.ConfirmEnabled()
    {
      SelectCustomer(None);
      SelectCustomer(Some(c));
    }

    /**
     * Editing the name and then clicking the same customer's row again keeps
     * the edit: the prop does not change, so the reset effect does not run.
     */
    method EditThenReselect(name: string)
      requires Valid() && customer.Some?
      modifies this`customer, this`form, this`drawer
      ensures Valid() && customer == old(customer) && drawer == old(drawer)
      ensures form == old(form).(name := name)
    {
      SetName(name);
      SelectCustomer(customer);
    }

    method SetName(name: string)
      requires Valid()
      modifies this`form
      ensures Valid()
      ensures form == old(form).(name := name)
    {
      form := form.(name := name);
    }

    /** The 男 and 女 buttons; neither can clear the gender. */
    method SetGender(g: Gender)
      requires Valid() && g != Unset
      modifies this`form
      ensures Valid()
      ensures form == old(form).(gender := g)
    {
      form := form.(gender := g);
    }

    /** The `k`-th age button. */
    method SetAge(k: nat)
      requires Valid() && k < |AgeRanges|
      modifies this`form
      ensures Valid()
      ensures form == old(form).(age := AgeRanges[k])
    {
      form := form.(age := AgeRanges[k]);
    }

    method SetOccupation(occupation: string)
      requires Valid()
      modifies this`form
      ensures Valid()
      ensures form == old(form).(occupation := occupation)
    {
      form := form.(occupation := occupation);
    }

    /** The 确认签到 button, rendered only for a selected customer, opens the drawer. */
    method OpenDrawer()
      requires customer.Some?
      modifies this`drawerOpen
      ensures drawerOpen
    {
      drawerOpen := true;
    }

    /** The drawer's cancel: the selection is cleared and the drawer closes. */
    method CancelCheckIn()
      requires Valid() && customer.Some?
      modifies drawer`selectedDrinks, drawer`selectedSeat, this`drawerOpen
      ensures Valid()
      ensures drawer.selectedDrinks == [] && drawer.selectedSeat == None
      ensures !drawerOpen
    {
      drawer.Cancel();
      drawerOpen := false;
    }

    /**
     * The delayed part of `handleCheckInComplete`: one success toast
     * describing the emitted drinks and seat, then the drawer closes.
     */
    method ShowSuccess(drinks: seq<Drink>, seat: Option<Seat>)
      requires Valid()
      modifies this`toasts, this`drawerOpen
      ensures Valid()
      ensures toasts == old(toasts) + [SuccessToast(drinks, seat)]
      ensures !drawerOpen
    {
      toasts := toasts + [SuccessToast(drinks, seat)];
      drawerOpen := false;
    }

    /**
     * The drawer's confirm (enabled only with a seat chosen): the seat is
     * occupied and its flag synced, one success toast describing the chosen
     * drinks and seat is raised, the selection is cleared and the drawer closes.
     */
    method ConfirmCheckIn()
      requires Valid() && customer.Some? && drawer.ConfirmEnabled()
      modifies drawer`selectedDrinks, drawer`selectedSeat, drawer.registry`occupied, drawer.registry.seats
      modifies this`toasts, this`drawerOpen
      ensures Valid() && drawer.registry.Synced()
      ensures toasts == old(toasts) + [SuccessToast(old(drawer.selectedDrinks), old(drawer.selectedSeat))]
      ensures drawer.registry.occupied == old(drawer.registry.occupied) + {old(drawer.selectedSeat).value.id}
      ensures drawer.registry.ShownOccupied(old(drawer.selectedSeat).value.id)
      ensures drawer.selectedDrinks == [] && drawer.selectedSeat == None
      ensures !drawerOpen
    {
      var drinks, seat := drawer.CompleteAndSync();
      ShowSuccess(drinks, seat);
    }
  }
}
