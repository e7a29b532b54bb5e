// The shared data model of the check-in kiosk (src/types/index.ts). The
// source's string-literal unions become closed datatypes; each comes with the
// text the UI shows and a parser proving the union has exactly those members.
// Numbers the kiosk only displays (age, budget, price) are modelled as `int`.
module Types {
  import opened Wrappers

  /** `'male' | 'female' | ''`: the empty string is the legal "unset" value. */
  datatype Gender = Male | Female | Unset

  function GenderText(g: Gender): string
  {
    match g
    case Male => "male"
    case Female => "female"
    case Unset => ""
  }

  /** Reads a string as a `Gender`; every string outside the union is refused. */
  function ParseGender(s: string): (r: Option<Gender>)
    ensures r.Some? ==> GenderText(r.value) == s
    ensures r.None? ==> forall g: Gender :: GenderText(g) != s
  {
    if s == "male" then Some(Male)
    else if s == "female" then Some(Female)
    else if s == "" then Some(Unset)
    else None
  }

  /** The five drink temperatures. */
  datatype Temperature = RoomTemperature | Hot | StandardIce | LessIce | NoIce

  function TemperatureText(t: Temperature): string
  {
    match t
    case RoomTemperature => "常温"
    case Hot => "热饮"
    case StandardIce => "标准冰"
    case LessIce => "少冰"
    case NoIce => "去冰"
  }

  function ParseTemperature(s: string): (r: Option<Temperature>)
    ensures r.Some? ==> TemperatureText(r.value) == s
    ensures r.None? ==> forall t: Temperature :: TemperatureText(t) != s
  {
    if s == "常温" then Some(RoomTemperature)
    else if s == "热饮" then Some(Hot)
    else if s == "标准冰" then Some(StandardIce)
    else if s == "少冰" then Some(LessIce)
    else if s == "去冰" then Some(NoIce)
    else None
  }

  /** The three sweetness levels. */
  datatype Sweetness = NoSugar | LessSugar | StandardSugar

  function SweetnessText(s: Sweetness): string
  {
    match s
    case NoSugar => "无糖"
    case LessSugar => "少糖"
    case StandardSugar => "标准糖"
  }

  function ParseSweetness(s: string): (r: Option<Sweetness>)
    ensures r.Some? ==> SweetnessText(r.value) == s
    ensures r.None? ==> forall w: Sweetness :: SweetnessText(w) != s
  {
    if s == "无糖" then Some(NoSugar)
    else if s == "少糖" then Some(LessSugar)
    else if s == "标准糖" then Some(StandardSugar)
    else None
  }

  /** The five ways a customer can have signed in. */
  datatype CheckInStatus =
    | VoucherRedeemed   // 案场核销礼券
    | IPadScan          // iPad扫码签到
    | EventSignUp       // 报名活动签到
    | PhoneNumber       // 手机号签到
    | ViewingCodeScan   // 扫描带看码

  function CheckInStatusText(c: CheckInStatus): string
  {
    match c
    case VoucherRedeemed => "案场核销礼券"
    case IPadScan => "iPad扫码签到"
    case EventSignUp => "报名活动签到"
    case PhoneNumber => "手机号签到"
    case ViewingCodeScan => "扫描带看码"
  }

  function ParseCheckInStatus(s: string): (r: Option<CheckInStatus>)
    ensures r.Some? ==> CheckInStatusText(r.value) == s
    ensures r.None? ==> forall c: CheckInStatus :: CheckInStatusText(c) != s
  {
    if s == "案场核销礼券" then Some(VoucherRedeemed)
    else if s == "iPad扫码签到" then Some(IPadScan)
    else if s == "报名活动签到" then Some(EventSignUp)
    else if s == "手机号签到" then Some(PhoneNumber)
    else if s == "扫描带看码" then Some(ViewingCodeScan)
    else None
  }

  datatype Recommender = Recommender(
    name: string,
    avatar: Option<string>,
    identity: string,
    recommendTime: string,
    isValid: bool)

  datatype Consultant = Consultant(id: string, name: string, avatar: Option<string>)

  datatype Drink = Drink(id: string, name: string, icon: Option<string>, price: Option<int>)

  /** One order line; `quantity` has no lower bound here: callers enforce any floor. */
  datatype DrinkOrderItem = DrinkOrderItem(
    id: string,
    drink: Drink,
    temperature: Temperature,
    sweetness: Sweetness,
    quantity: int)

  /** A seat always says whether it is occupied; its area is optional. */
  datatype Seat = Seat(id: string, name: string, area: Option<string>, isOccupied: bool)

  datatype Customer = Customer(
    id: string,
    name: string,
    phone: string,
    avatar: string,
    age: Option<int>,
    occupation: Option<string>,
    familyStructure: Option<string>,
    budget: Option<int>,
    status: Option<CheckInStatus>,
    checkInTime: Option<string>,
    recommender: Option<Recommender>,
    consultant: Option<Consultant>,
    gender: Option<Gender>,
    isProcessed: Option<bool>,
    selectedDrink: Option<Drink>,
    selectedSeat: Option<Seat>)

  /** The editable profile form; `age` holds one of the age-range labels or `""`. */
  datatype CustomerFormData = CustomerFormData(
    name: string,
    gender: Gender,
    age: string,
    occupation: string,
    consultantId: Option<string>)
}
