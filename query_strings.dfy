/** The web client's query strings for the maintenance and damage lists:
    one `name=value` piece per filter field that is set, in a fixed field
    order, joined with `&` behind a `?`, or nothing at all when no field
    is set. */
module QueryStrings {
  import opened Wrappers
  import opened Seqs
  import opened Time
  import opened Entities

  predicate IsDigits(s: string)
  {
    forall i :: 0 <= i < |s| ==> '0' <= s[i] <= '9'
  }

  /** Text safe inside a piece: no `&` that would split it. */
  predicate NoAmpersand(s: string) { '&' !in s }

  lemma DigitsHaveNoAmpersand(s: string)
    requires IsDigits(s)
    ensures NoAmpersand(s)
  {
    assert forall i :: 0 <= i < |s| ==> s[i] != '&';
    assert '&' !in s;
  }

  function DigitChar(d: nat): (c: char)
    requires d < 10
    ensures '0' <= c <= '9'
    ensures c as int - '0' as int == d
  {
    "0123456789"[d]
  }

  /** Decimal digits of `n`, most significant first, without leading
      zeros. */
  function NatToString(n: nat): (s: string)
    ensures 1 <= |s| && IsDigits(s)
    ensures n > 0 ==> s[0] != '0'
    ensures n < 10 ==> |s| == 1
    ensures n < 100 ==> |s| <= 2
    ensures n < 10000 ==> |s| <= 4
  {
    if n < 10 then [DigitChar(n)] else NatToString(n / 10) + [DigitChar(n % 10)]
  }

  /** The number a string of decimal digits denotes. */
  function DigitsValue(s: string): nat
    requires IsDigits(s)
  {
    if |s| == 0 then 0 else DigitsValue(s[..|s| - 1]) * 10 + (s[|s| - 1] as int - '0' as int)
  }

  lemma {:induction false} NatToStringRoundTrip(n: nat)
    ensures DigitsValue(NatToString(n)) == n
  {
    if n >= 10 {
      NatToStringRoundTrip(n / 10);
      var s := NatToString(n);
      assert s[..|s| - 1] == NatToString(n / 10);
    }
  }

  /** `int.ToString()`: a minus sign before the digits of a negative
      value. */
  function IntToString(i: int): (s: string)
    ensures 1 <= |s| && NoAmpersand(s)
    ensures i < 0 <==> s[0] == '-'
    ensures IsDigits(s[1..])
  {
    var digits := NatToString(if i < 0 then -i else i);
    DigitsHaveNoAmpersand(digits);
    if i < 0 then "-" + digits else digits
  }

  /** Reads an optional minus sign and decimal digits. */
  function ParseInt(s: string): int
    requires 1 <= |s| && IsDigits(s[1..]) && (s[0] == '-' || '0' <= s[0] <= '9')
  {
    if s[0] == '-' then 0 - DigitsValue(s[1..]) as int else DigitsValue(s)
  }

  /** An integer read back from its text is the same integer. */
  lemma IntToStringRoundTrip(i: int)
    ensures var s := IntToString(i); s[0] == '-' || '0' <= s[0] <= '9'
    ensures ParseInt(IntToString(i)) == i
  {
    if i < 0 {
      NatToStringRoundTrip(-i);
      assert IntToString(i)[1..] == NatToString(-i);
    } else {
      NatToStringRoundTrip(i);
    }
  }

  /** `bool.ToString()`. */
  function BoolToString(b: bool): (s: string)
    ensures NoAmpersand(s)
  {
    if b then "True" else "False"
  }

  function Zeros(k: nat): (z: string)
    ensures |z| == k && IsDigits(z)
  {
    seq(k, _ => '0')
  }

  /** `s` preceded by zeros up to `width` characters. */
  function PadLeft(s: string, width: nat): (r: string)
    ensures |r| == if |s| < width then width else |s|
  {
    if |s| < width then Zeros(width - |s|) + s else s
  }

  lemma {:induction false} ZerosAreZero(k: nat)
    ensures DigitsValue(Zeros(k)) == 0
  {
    if k > 0 {
      ZerosAreZero(k - 1);
      assert Zeros(k)[..k - 1] == Zeros(k - 1);
    }
  }

  /** Leading zeros do not change the number. */
  lemma {:induction false} LeadingZerosIgnored(k: nat, s: string)
    requires IsDigits(s)
    ensures IsDigits(Zeros(k) + s)
    ensures DigitsValue(Zeros(k) + s) == DigitsValue(s)
  {
    var t := Zeros(k) + s;
    if |s| == 0 {
      assert t == Zeros(k);
      ZerosAreZero(k);
    } else {
      LeadingZerosIgnored(k, s[..|s| - 1]);
      assert t[..|t| - 1] == Zeros(k) + s[..|s| - 1];
    }
  }

  /** A number padded to `width` digits still reads as the number. */
  lemma PaddedRoundTrip(n: nat, width: nat)
    ensures IsDigits(PadLeft(NatToString(n), width))
    ensures DigitsValue(PadLeft(NatToString(n), width)) == n
  {
    var s := NatToString(n);
    NatToStringRoundTrip(n);
    if |s| < width {
      LeadingZerosIgnored(width - |s|, s);
    }
  }

  /** `yyyy-MM-dd` of a calendar date. */
  function CivilToString(c: Civil): (s: string)
    requires c.year >= 1 && 1 <= c.month <= 12 && 1 <= c.day <= 31
    ensures NoAmpersand(s)
  {
    var y := PadLeft(NatToString(c.year), 4);
    var m := PadLeft(NatToString(c.month), 2);
    var d := PadLeft(NatToString(c.day), 2);
    PaddedRoundTrip(c.year, 4);
    PaddedRoundTrip(c.month, 2);
    PaddedRoundTrip(c.day, 2);
    DigitsHaveNoAmpersand(y);
    DigitsHaveNoAmpersand(m);
    DigitsHaveNoAmpersand(d);
    y + "-" + m + "-" + d
  }

  /** `ToString("yyyy-MM-dd")` of an instant: its calendar date. */
  function DateToString(t: Instant): (s: string)
    ensures NoAmpersand(s)
  {
    CivilToString(CivilFromDayNumber(DayNumber(t)))
  }

  /** A date up to year 9999 takes ten characters, and its year, month and
      day read back as the date's own. */
  lemma CivilToStringRoundTrip(c: Civil)
    requires 1 <= c.year <= 9999 && 1 <= c.month <= 12 && 1 <= c.day <= 31
    ensures var s := CivilToString(c);
            |s| == 10 && s[4] == '-' && s[7] == '-'
            && IsDigits(s[..4]) && DigitsValue(s[..4]) == c.year
            && IsDigits(s[5..7]) && DigitsValue(s[5..7]) == c.month
            && IsDigits(s[8..]) && DigitsValue(s[8..]) == c.day
  {
    var y := PadLeft(NatToString(c.year), 4);
    var m := PadLeft(NatToString(c.month), 2);
    var d := PadLeft(NatToString(c.day), 2);
    var s := CivilToString(c);
    assert s == y + "-" + m + "-" + d;
    assert s[..4] == y && s[5..7] == m && s[8..] == d;
    PaddedRoundTrip(c.year, 4);
    PaddedRoundTrip(c.month, 2);
    PaddedRoundTrip(c.day, 2);
  }

  /** The filter fields the client knows, each with the parameter name it
      writes. */
  datatype Field = VehicleId | RentalId | Type | Severity | Status | StartDate | EndDate | IsOverdue | UnresolvedOnly
  {
    function Name(): (name: string)
      ensures |name| > 0 && NoAmpersand(name)
    {
      match this
      case VehicleId => "vehicleId"
      case RentalId => "rentalId"
      case Type => "type"
      case Severity => "severity"
      case Status => "status"
      case StartDate => "startDate"
      case EndDate => "endDate"
      case IsOverdue => "isOverdue"
      case UnresolvedOnly => "unresolvedOnly"
    }
  }

  /** A filter field and its text, when the field is set. */
  datatype Slot = Slot(field: Field, value: Option<string>)

  /** One `name=value` piece before rendering. */
  datatype Param = Param(field: Field, value: string)

  predicate IsSet(s: Slot) { s.value.Some? }

  /** Nothing in the slot's text would split a piece. */
  predicate SafeSlot(s: Slot)
  {
    s.value.Some? ==> NoAmpersand(s.value.value)
  }

  function IntSlot(field: Field, v: Option<int>): (s: Slot)
    ensures s.field == field && (IsSet(s) <==> v.Some?) && SafeSlot(s)
  {
    Slot(field, if v.Some? then Some(IntToString(v.value)) else None)
  }

  function DateSlot(field: Field, v: Option<Instant>): (s: Slot)
    ensures s.field == field && (IsSet(s) <==> v.Some?) && SafeSlot(s)
  {
    Slot(field, if v.Some? then Some(DateToString(v.value)) else None)
  }

  function BoolSlot(field: Field, v: Option<bool>): (s: Slot)
    ensures s.field == field && (IsSet(s) <==> v.Some?) && SafeSlot(s)
  {
    Slot(field, if v.Some? then Some(BoolToString(v.value)) else None)
  }

  function ToParam(s: Slot): Param
    requires IsSet(s)
  {
    Param(s.field, s.value.value)
  }

  /** The parameters the set slots contribute, in slot order. */
  function Present(slots: seq<Slot>): (params: seq<Param>)
    ensures |params| <= |slots|
    ensures |params| == 0 <==> forall i :: 0 <= i < |slots| ==> !IsSet(slots[i])
    ensures forall p :: p in params ==> Slot(p.field, Some(p.value)) in slots
  {
    if |slots| == 0 then []
    else
      var rest := Present(slots[1..]);
      assert forall p :: p in rest ==> Slot(p.field, Some(p.value)) in slots[1..];
      (if IsSet(slots[0]) then [ToParam(slots[0])] else []) + rest
  }

  /** The parameters are exactly the set slots, converted in their order:
      `Where` then `Select`. */
  lemma {:induction false} PresentIsSelectedSlots(slots: seq<Slot>)
    ensures Present(slots) == Map(Filter(slots, IsSet), (s: Slot) => if IsSet(s) then ToParam(s) else Param(s.field, ""))
  {
    if |slots| > 0 {
      PresentIsSelectedSlots(slots[1..]);
    }
  }

  /** As many parameters as set slots. */
  lemma {:induction false} PresentCountsSetSlots(slots: seq<Slot>)
    ensures |Present(slots)| == Count(slots, IsSet)
  {
    if |slots| > 0 {
      PresentCountsSetSlots(slots[1..]);
    }
  }

  /** One more slot adds its parameter, if set, at the end. */
  lemma {:induction false} PresentSnoc(slots: seq<Slot>, s: Slot)
    ensures Present(slots + [s]) == Present(slots) + (if IsSet(s) then [ToParam(s)] else [])
  {
    if |slots| == 0 {
      assert slots + [s] == [s];
    } else {
      assert (slots + [s])[1..] == slots[1..] + [s];
      PresentSnoc(slots[1..], s);
    }
  }

  /** The parameters of the first `k + 1` slots extend those of the first
      `k` by slot `k`'s, if set. */
  lemma PresentPrefix(slots: seq<Slot>, k: nat)
    requires k < |slots|
    ensures Present(slots[..k + 1]) == Present(slots[..k]) + (if IsSet(slots[k]) then [ToParam(slots[k])] else [])
  {
    assert slots[..k + 1] == slots[..k] + [slots[k]];
    PresentSnoc(slots[..k], slots[k]);
  }

  function Render(p: Param): string
  {
    p.field.Name() + "=" + p.value
  }

  /** `string.Join("&", parts)`. */
  function Join(parts: seq<string>): (s: string)
    ensures |parts| == 0 ==> s == ""
    ensures |parts| > 0 ==> multiset(s)['&'] == |parts| - 1 + SumAmps(parts)
  {
    if |parts| == 0 then ""
    else if |parts| == 1 then parts[0]
    else parts[0] + "&" + Join(parts[1..])
  }

  /** The ampersands inside the parts themselves. */
  function SumAmps(parts: seq<string>): nat
  {
    if |parts| == 0 then 0 else multiset(parts[0])['&'] + SumAmps(parts[1..])
  }

  /** `?` and the joined pieces, or nothing when there are none. */
  function QueryString(params: seq<Param>): (q: string)
    ensures q == "" <==> |params| == 0
    ensures |params| > 0 ==> q[0] == '?'
  {
    if |params| > 0 then "?" + Join(Map(params, Render)) else ""
  }

  lemma {:induction false} SumAmpsZero(parts: seq<string>)
    requires forall p :: p in parts ==> NoAmpersand(p)
    ensures SumAmps(parts) == 0
  {
    if |parts| > 0 {
      assert parts[0] in parts;
      SumAmpsZero(parts[1..]);
    }
  }

  /** When no value holds an `&`, the pieces are separated by
      exactly one `&` each. */
  lemma AmpersandsSeparatePieces(params: seq<Param>)
    requires forall p :: p in params ==> NoAmpersand(p.value)
    ensures |params| > 0 ==> multiset(QueryString(params))['&'] == |params| - 1
  {
    var parts := Map(params, Render);
    forall s | s in parts ensures NoAmpersand(s) {
      var k :| 0 <= k < |parts| && parts[k] == s;
      assert params[k] in params;
    }
    SumAmpsZero(parts);
    if |params| > 0 {
      assert QueryString(params) == "?" + Join(parts);
    }
  }

  const NoMaintenanceFilter := MaintenanceFilter(None, None, None, None, None, None)
  const NoDamageFilter := DamageFilter(None, None, None, None, None, None, None)

  /** The maintenance filter's fields in the order the client writes them. */
  function MaintenanceSlots(f: MaintenanceFilter): (slots: seq<Slot>)
    ensures |slots| == 6
    ensures forall i :: 0 <= i < |slots| ==> SafeSlot(slots[i])
  {
    [IntSlot(VehicleId, f.vehicleId), IntSlot(Type, f.kind), IntSlot(Status, f.status),
     DateSlot(StartDate, f.startDate), DateSlot(EndDate, f.endDate), BoolSlot(IsOverdue, f.isOverdue)]
  }

  /** The damage filter's fields in the order the client writes them. */
  function DamageSlots(f: DamageFilter): (slots: seq<Slot>)
    ensures |slots| == 7
    ensures forall i :: 0 <= i < |slots| ==> SafeSlot(slots[i])
  {
    [IntSlot(VehicleId, f.vehicleId), IntSlot(RentalId, f.rentalId), IntSlot(Severity, f.severity),
     IntSlot(Status, f.status), DateSlot(StartDate, f.startDate), DateSlot(EndDate, f.endDate),
     BoolSlot(UnresolvedOnly, f.unresolvedOnly)]
  }

  /** The maintenance pieces come in the order vehicleId, type, status,
      startDate, endDate, isOverdue, one for each field that is set. */
  lemma MaintenanceSlotOrder(f: MaintenanceFilter)
    ensures var slots := MaintenanceSlots(f);
            slots[0].field == VehicleId && slots[1].field == Type && slots[2].field == Status
            && slots[3].field == StartDate && slots[4].field == EndDate && slots[5].field == IsOverdue
            && (IsSet(slots[0]) <==> f.vehicleId.Some?) && (IsSet(slots[1]) <==> f.kind.Some?)
            && (IsSet(slots[2]) <==> f.status.Some?) && (IsSet(slots[3]) <==> f.startDate.Some?)
            && (IsSet(slots[4]) <==> f.endDate.Some?) && (IsSet(slots[5]) <==> f.isOverdue.Some?)
  {
  }

  /** The damage pieces come in the order vehicleId, rentalId, severity,
      status, startDate, endDate, unresolvedOnly, one for each field that is
      set. */
  lemma DamageSlotOrder(f: DamageFilter)
    ensures var slots := DamageSlots(f);
            slots[0].field == VehicleId && slots[1].field == RentalId && slots[2].field == Severity
            && slots[3].field == Status && slots[4].field == StartDate && slots[5].field == EndDate
            && slots[6].field == UnresolvedOnly
            && (IsSet(slots[0]) <==> f.vehicleId.Some?) && (IsSet(slots[1]) <==> f.rentalId.Some?)
            && (IsSet(slots[2]) <==> f.severity.Some?) && (IsSet(slots[3]) <==> f.status.Some?)
            && (IsSet(slots[4]) <==> f.startDate.Some?) && (IsSet(slots[5]) <==> f.endDate.Some?)
            && (IsSet(slots[6]) <==> f.unresolvedOnly.Some?)
  {
  }

  /** Every value the slots produce is free of `&`. */
  lemma SlotTextsAreSafe(slots: seq<Slot>)
    requires forall i :: 0 <= i < |slots| ==> SafeSlot(slots[i])
    ensures forall p :: p in Present(slots) ==> NoAmpersand(p.value)
  {
    forall p | p in Present(slots) ensures NoAmpersand(p.value) {
      var k :| 0 <= k < |slots| && slots[k] == Slot(p.field, Some(p.value));
      assert SafeSlot(slots[k]);
    }
  }

  /** No maintenance field set leaves every slot unset, and the other way
      round. */
  lemma MaintenanceSlotsUnset(f: MaintenanceFilter)
    ensures (forall i :: 0 <= i < |MaintenanceSlots(f)| ==> !IsSet(MaintenanceSlots(f)[i])) <==> f == NoMaintenanceFilter
  {
    var slots := MaintenanceSlots(f);
    if f == NoMaintenanceFilter {
      forall i | 0 <= i < |slots| ensures !IsSet(slots[i]) {
        if i == 0 {} else if i == 1 {} else if i == 2 {} else if i == 3 {} else if i == 4 {} else {}
      }
    } else {
      assert IsSet(slots[0]) || IsSet(slots[1]) || IsSet(slots[2]) || IsSet(slots[3]) || IsSet(slots[4]) || IsSet(slots[5]);
    }
  }

  lemma DamageSlotsUnset(f: DamageFilter)
    ensures (forall i :: 0 <= i < |DamageSlots(f)| ==> !IsSet(DamageSlots(f)[i])) <==> f == NoDamageFilter
  {
    var slots := DamageSlots(f);
    if f == NoDamageFilter {
      forall i | 0 <= i < |slots| ensures !IsSet(slots[i]) {
        if i == 0 {} else if i == 1 {} else if i == 2 {} else if i == 3 {} else if i == 4 {} else if i == 5 {} else {}
      }
    } else {
      assert IsSet(slots[0]) || IsSet(slots[1]) || IsSet(slots[2]) || IsSet(slots[3]) || IsSet(slots[4])
             || IsSet(slots[5]) || IsSet(slots[6]);
    }
  }

  /** For any safe slots the query string is empty exactly when no slot
      is set; otherwise it has one piece per set slot, separated by `&`. */
  lemma QueryShape(slots: seq<Slot>)
    requires forall i :: 0 <= i < |slots| ==> SafeSlot(slots[i])
    ensures QueryString(Present(slots)) == "" <==> forall i :: 0 <= i < |slots| ==> !IsSet(slots[i])
    ensures |Present(slots)| == Count(slots, IsSet)
    ensures |Present(slots)| > 0 ==> multiset(QueryString(Present(slots)))['&'] == |Present(slots)| - 1
  {
    PresentCountsSetSlots(slots);
    SlotTextsAreSafe(slots);
    AmpersandsSeparatePieces(Present(slots));
  }

  /** The maintenance query string is empty exactly when no field is set;
      otherwise it has one piece per set field, separated by `&`. */
  lemma MaintenanceQueryShape(f: MaintenanceFilter)
    ensures QueryString(Present(MaintenanceSlots(f))) == "" <==> f == NoMaintenanceFilter
    ensures |Present(MaintenanceSlots(f))| == Count(MaintenanceSlots(f), IsSet)
    ensures |Present(MaintenanceSlots(f))| > 0 ==>
              multiset(QueryString(Present(MaintenanceSlots(f))))['&'] == |Present(MaintenanceSlots(f))| - 1
  {
    MaintenanceSlotsUnset(f);
    QueryShape(MaintenanceSlots(f));
  }

  /** The same for the damage query string. */
  lemma DamageQueryShape(f: DamageFilter)
    ensures QueryString(Present(DamageSlots(f))) == "" <==> f == NoDamageFilter
    ensures |Present(DamageSlots(f))| == Count(DamageSlots(f), IsSet)
    ensures |Present(DamageSlots(f))| > 0 ==>
              multiset(QueryString(Present(DamageSlots(f))))['&'] == |Present(DamageSlots(f))| - 1
  {
    DamageSlotsUnset(f);
    QueryShape(DamageSlots(f));
  }

  /** `if (field.HasValue) parameters.Add(...)` for slot `k`: the
      parameters of the slots before it, extended by its piece when it is
      set. */
  method AddIfSet(parameters: seq<Param>, slots: seq<Slot>, k: nat) returns (extended: seq<Param>)
    requires k < |slots|
    requires parameters == Present(slots[..k])
    ensures extended == Present(slots[..k + 1])
    ensures k + 1 == |slots| ==> extended == Present(slots)
  {
    extended := parameters;
    if slots[k].value.Some? {
      extended := extended + [Param(slots[k].field, slots[k].value.value)];
    }
    PresentPrefix(slots, k);
    assert k + 1 == |slots| ==> slots[..k + 1] == slots;
  }

  /** `BuildMaintenanceQueryString`: one `Add` per set field, in field
      order, then the join. */
  method BuildMaintenanceQueryString(f: MaintenanceFilter) returns (q: string)
    ensures q == QueryString(Present(MaintenanceSlots(f)))
  {
    var slots := MaintenanceSlots(f);
    var parameters: seq<Param> := [];
    assert slots[..0] == [];
    parameters := AddIfSet(parameters, slots, 0);
    parameters := AddIfSet(parameters, slots, 1);
    parameters := AddIfSet(parameters, slots, 2);
    parameters := AddIfSet(parameters, slots, 3);
    parameters := AddIfSet(parameters, slots, 4);
    parameters := AddIfSet(parameters, slots, 5);
    q := if |parameters| > 0 then "?" + Join(Map(parameters, Render)) else "";
  }

  /** `BuildDamageQueryString`. */
  method BuildDamageQueryString(f: DamageFilter) returns (q: string)
    ensures q == QueryString(Present(DamageSlots(f)))
  {
    var slots := DamageSlots(f);
    var parameters: seq<Param> := [];
    assert slots[..0] == [];
    parameters := AddIfSet(parameters, slots, 0);
    parameters := AddIfSet(parameters, slots, 1);
    parameters := AddIfSet(parameters, slots, 2);
    parameters := AddIfSet(parameters, slots, 3);
    parameters := AddIfSet(parameters, slots, 4);
    parameters := AddIfSet(parameters, slots, 5);
    parameters := AddIfSet(parameters, slots, 6);
    q := if |parameters| > 0 then "?" + Join(Map(parameters, Render)) else "";
  }

  /** The list request path: no filter adds nothing to it. */
  method MaintenancesPath(filter: Option<MaintenanceFilter>) returns (path: string)
    ensures filter.None? ==> path == "api/maintenances"
    ensures filter.Some? ==> path == "api/maintenances" + QueryString(Present(MaintenanceSlots(filter.value)))
  {
    var query := "";
    if filter.Some? {
      query := BuildMaintenanceQueryString(filter.value);
    }
    path := "api/maintenances" + query;
  }

  method DamagesPath(filter: Option<DamageFilter>) returns (path: string)
    ensures filter.None? ==> path == "api/vehicledamages"
    ensures filter.Some? ==> path == "api/vehicledamages" + QueryString(Present(DamageSlots(filter.value)))
  {
    var query := "";
    if filter.Some? {
      query := BuildDamageQueryString(filter.value);
    }
    path := "api/vehicledamages" + query;
  }
}
