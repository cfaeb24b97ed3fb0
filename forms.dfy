/** battery/forms.py: the capacity check on an assignment's quantity
    (BatteryAssignmentForm.clean_battery_qty) with the field validation
    around it, the device form's validation, and the two filter forms whose
    choice lists are built from the account's rows. */
module Forms {
  import opened Aggregates
  import opened Numerals
  import opened Models

  // ---------------------------------------------------------------------
  // The allocation check
  // ---------------------------------------------------------------------

  /** The assignments of `owner` whose device is described as `desc`. The
      check joins on the device's description, not on its id, so
      assignments on different devices with the same description are
      pooled. */
  function Pooled(db: Db, owner: Owner, desc: string): (r: map<Pk, Assignment>)
    ensures SubTable(r, db.assignments)
    ensures forall k :: k in r <==>
      && k in db.assignments && db.assignments[k].owner == owner
      && db.assignments[k].device in db.devices
      && db.devices[db.assignments[k].device].description == desc
  {
    map k | k in db.assignments && db.assignments[k].owner == owner
            && db.assignments[k].device in db.devices
            && db.devices[db.assignments[k].device].description == desc :: db.assignments[k]
  }

  /** Python truthiness applied to the aggregate: a missing (None) or zero
      sum both become 0. */
  function OrZero(sum: Option<int>): (r: int)
    ensures sum.None? ==> r == 0
    ensures sum.Some? ==> r == sum.value
  {
    if sum.Some? && sum.value != 0 then sum.value else 0
  }

  /** The committed quantity the check subtracts, with an empty aggregate
      read as 0. */
  function PooledTotal(db: Db, owner: Owner, desc: string): (s: int)
    ensures s == Total(Pooled(db, owner, desc), Qty)
    ensures Pooled(db, owner, desc) == map[] ==> s == 0
    ensures s >= 0
  {
    TotalNonNegative(Pooled(db, owner, desc), Qty);
    OrZero(Aggregate(Pooled(db, owner, desc), Qty))
  }

  /** The largest quantity the check admits: the capacity, less everything
      committed to the device, plus what the record being edited held
      before (0 when creating). */
  function Ceiling(capacity: int, committed: int, initial: int): int {
    capacity - committed + initial
  }

  const MessageHead := "No more than "
  const MessageTail := " can be assigned to this device."

  function Noun(rest: int): (r: string)
    ensures r == "batteries" <==> rest > 1
    ensures r == "battery" <==> rest <= 1
  {
    if rest > 1 then "batteries" else "battery"
  }

  /** The rejection message, naming the ceiling as it is, zero and negative
      values included. */
  function CapacityMessage(rest: int): (msg: string)
    ensures MessageHead <= msg
  {
    MessageHead + Decimal(rest) + " " + Noun(rest) + MessageTail
  }

  /** Reads the ceiling back out of a rejection message (0 if it has none). */
  function ReadCeiling(msg: string): int {
    if |MessageHead| <= |msg| && IsNumeral(FirstWord(msg[|MessageHead|..]))
    then ParseDecimal(FirstWord(msg[|MessageHead|..]))
    else 0
  }

  /** The message identifies the exact ceiling. */
  lemma CeilingInMessage(rest: int)
    ensures ReadCeiling(CapacityMessage(rest)) == rest
  {
    var msg := CapacityMessage(rest);
    assert msg[|MessageHead|..] == Decimal(rest) + " " + (Noun(rest) + MessageTail);
    FirstWordOf(Decimal(rest), Noun(rest) + MessageTail);
    DecimalRoundTrip(rest);
  }

  /** Different ceilings give different messages. */
  lemma MessageDeterminesCeiling(rest1: int, rest2: int)
    requires CapacityMessage(rest1) == CapacityMessage(rest2)
    ensures rest1 == rest2
  {
    CeilingInMessage(rest1);
    CeilingInMessage(rest2);
  }

  /** After the head and a numeral `d`, the message's next word is the
      noun, and it ends with the fixed tail. */
  lemma NounAfterNumeral(d: string, noun: string)
    requires ' ' !in noun
    ensures var msg := MessageHead + d + " " + noun + MessageTail;
      && FirstWord(msg[|MessageHead| + |d| + 1..]) == noun
      && msg[|msg| - |MessageTail|..] == MessageTail
  {
    var msg := MessageHead + d + " " + noun + MessageTail;
    assert msg[|MessageHead| + |d| + 1..] == noun + " " + MessageTail[1..];
    FirstWordOf(noun, MessageTail[1..]);
  }

  /** The message names the noun right after the ceiling and ends with
      the fixed tail. */
  lemma NounInMessage(rest: int)
    ensures var msg := CapacityMessage(rest);
      && |MessageHead| + |Decimal(rest)| + 1 <= |msg|
      && FirstWord(msg[|MessageHead| + |Decimal(rest)| + 1..]) == Noun(rest)
      && |MessageTail| <= |msg| && msg[|msg| - |MessageTail|..] == MessageTail
  {
    var noun := Noun(rest);
    assert ' ' !in noun by {
      assert noun == "batteries" || noun == "battery";
    }
    NounAfterNumeral(Decimal(rest), noun);
  }

  datatype QtyCheck = Accepted(qty: int) | Rejected(message: string)

  /** The decision of clean_battery_qty once the quantities are known. */
  function CheckQty(capacity: int, committed: int, initial: int, qty: int): (r: QtyCheck)
    ensures r.Accepted? <==> 1 <= qty <= Ceiling(capacity, committed, initial)
    ensures r.Accepted? ==> r.qty == qty
    ensures r.Rejected? ==> r.message == CapacityMessage(Ceiling(capacity, committed, initial))
    ensures r.Rejected? ==> ReadCeiling(r.message) == Ceiling(capacity, committed, initial)
  {
    var rest := Ceiling(capacity, committed, initial);
    if 1 <= qty <= rest then Accepted(qty)
    else
      CeilingInMessage(rest);
      Rejected(CapacityMessage(rest))
  }

  /** The boundaries of the check: 0 is never admitted, the ceiling itself
      is, one more than the ceiling is not; a rejection's noun is plural
      exactly when the ceiling exceeds 1. */
  lemma CheckQtyBoundaries(capacity: int, committed: int, initial: int)
    ensures CheckQty(capacity, committed, initial, 0).Rejected?
    ensures var rest := Ceiling(capacity, committed, initial);
      && (rest >= 1 ==> CheckQty(capacity, committed, initial, rest) == Accepted(rest))
      && CheckQty(capacity, committed, initial, rest + 1) == Rejected(CapacityMessage(rest))
  {
  }

  // ---------------------------------------------------------------------
  // BatteryAssignmentForm
  // ---------------------------------------------------------------------

  /** A submitted assignment form. `device` and `batteryModel` are the
      chosen option values (None when missing or not a number); `qty` is
      None when missing or not an integer. */
  datatype AssignmentInput = AssignmentInput(device: Option<Pk>, batteryModel: Option<Pk>, qty: Option<int>)

  datatype Field = DeviceField | ModelField | QtyField

  /** The outcome of validating the form: the cleaned values, the fields in
      error (with the capacity message when the check rejected), or an
      exception that escapes validation. */
  datatype AssignmentClean =
    | Cleaned(device: Pk, batteryModel: Pk, qty: nat)
    | Errors(fields: set<Field>, capacityMessage: Option<string>)
    | Crash

  /** The device field only offers the account's own devices. */
  predicate OwnsDevice(db: Db, owner: Owner, k: Pk) {
    k in db.devices && db.devices[k].owner == owner
  }

  /** The battery model field only offers the account's own models. */
  predicate OwnsModel(db: Db, owner: Owner, k: Pk) {
    k in db.models && db.models[k].owner == owner
  }

  /** The account's devices described as `desc`: what
      Device.objects.get(user=..., description=...) matches. */
  function DevicesNamed(db: Db, owner: Owner, desc: string): set<Pk> {
    set k | k in db.devices && db.devices[k].owner == owner && db.devices[k].description == desc
  }

  predicate DeviceFieldOk(db: Db, owner: Owner, input: AssignmentInput) {
    input.device.Some? && OwnsDevice(db, owner, input.device.value)
  }

  predicate ModelFieldOk(db: Db, owner: Owner, input: AssignmentInput) {
    input.batteryModel.Some? && OwnsModel(db, owner, input.batteryModel.value)
  }

  /** The field's own validation: a PositiveSmallIntegerField admits 0. */
  predicate QtyFieldOk(input: AssignmentInput) {
    input.qty.Some? && input.qty.value >= 0
  }

  /** The chosen device is the only one of the account with its description. */
  predicate UniquelyNamed(db: Db, owner: Owner, d: Pk)
    requires d in db.devices
  {
    DevicesNamed(db, owner, db.devices[d].description) == {d}
  }

  /** The ceiling clean_battery_qty computes for the chosen device. */
  function FormCeiling(db: Db, owner: Owner, d: Pk, initial: int): int
    requires d in db.devices
  {
    var dev := db.devices[d];
    Ceiling(dev.capacity, PooledTotal(db, owner, dev.description), initial)
  }

  /** Validation of BatteryAssignmentForm, with `initial` the quantity the
      view put in form.initial. Fields are cleaned in declaration order;
      clean_battery_qty runs only when the quantity passed its own field
      validation, and then reads the cleaned device: a device that failed
      validation is missing there (KeyError), and a description shared by
      two of the account's devices makes the lookup fail
      (MultipleObjectsReturned). Neither is caught. */
  function CleanAssignment(db: Db, owner: Owner, input: AssignmentInput, initial: int): (r: AssignmentClean)
    ensures r.Crash? <==>
      QtyFieldOk(input) && (!DeviceFieldOk(db, owner, input) || !UniquelyNamed(db, owner, input.device.value))
    ensures r.Cleaned? <==>
      && DeviceFieldOk(db, owner, input) && ModelFieldOk(db, owner, input) && QtyFieldOk(input)
      && UniquelyNamed(db, owner, input.device.value)
      && 1 <= input.qty.value <= FormCeiling(db, owner, input.device.value, initial)
    ensures r.Cleaned? ==>
      r.device == input.device.value && r.batteryModel == input.batteryModel.value && r.qty == input.qty.value
    ensures r.Errors? && r.capacityMessage.Some? ==>
      && DeviceFieldOk(db, owner, input)
      && ReadCeiling(r.capacityMessage.value) == FormCeiling(db, owner, input.device.value, initial)
    ensures r.Errors? && QtyFieldOk(input) ==> r.capacityMessage.Some? || ModelField in r.fields
    ensures r.Errors? ==>
      && (DeviceField in r.fields <==> !DeviceFieldOk(db, owner, input))
      && (ModelField in r.fields <==> !ModelFieldOk(db, owner, input))
      && (QtyField in r.fields <==> !QtyFieldOk(input) || r.capacityMessage.Some?)
    ensures r.Errors? ==>
      (r.capacityMessage.Some? <==>
        && QtyFieldOk(input) && DeviceFieldOk(db, owner, input)
        && !(1 <= input.qty.value <= FormCeiling(db, owner, input.device.value, initial)))
    ensures r.Errors? && r.capacityMessage.Some? ==>
      && DeviceFieldOk(db, owner, input)
      && r.capacityMessage.value == CapacityMessage(FormCeiling(db, owner, input.device.value, initial))
  {
    var deviceOk := DeviceFieldOk(db, owner, input);
    var modelOk := ModelFieldOk(db, owner, input);
    var otherErrors := (if deviceOk then {} else {DeviceField}) + (if modelOk then {} else {ModelField});
    if !QtyFieldOk(input) then Errors(otherErrors + {QtyField}, None)
    else if !deviceOk then Crash
    else
      var d := input.device.value;
      var desc := db.devices[d].description;
      assert d in DevicesNamed(db, owner, desc);
      if DevicesNamed(db, owner, desc) != {d} then Crash
      else
        // the one device found is the chosen one
        match CheckQty(db.devices[d].capacity, PooledTotal(db, owner, desc), initial, input.qty.value)
        case Accepted(q) =>
          if modelOk then Cleaned(d, input.batteryModel.value, q) else Errors(otherErrors, None)
        case Rejected(msg) => Errors(otherErrors + {QtyField}, Some(msg))
  }

  /** The record a cleaned form saves, with the requesting account as owner. */
  function Record(c: AssignmentClean, owner: Owner): Assignment
    requires c.Cleaned?
  {
    Assignment(c.device, c.batteryModel, c.qty, owner)
  }

  // ---------------------------------------------------------------------
  // DeviceForm
  // ---------------------------------------------------------------------

  /** A submitted device form: the description as typed, the chosen battery
      type (None when missing or not a number) and the capacity (None when
      missing or not an integer). */
  datatype DeviceInput = DeviceInput(description: string, batteryType: Option<Pk>, capacity: Option<int>)

  const MaxDescription := 100

  /** The characters Python's `str.strip()` removes: those `str.isspace()`
      holds for. */
  predicate IsSpace(c: char) {
    var n := c as int;
    || 0x09 <= n <= 0x0D || 0x1C <= n <= 0x20 || n == 0x85 || n == 0xA0
    || n == 0x1680 || 0x2000 <= n <= 0x200A || n == 0x2028 || n == 0x2029
    || n == 0x202F || n == 0x205F || n == 0x3000
  }

  /** How many blank characters the text starts with. */
  function LeadingBlanks(s: string): (n: nat)
    ensures n <= |s|
    ensures forall k :: 0 <= k < n ==> IsSpace(s[k])
    ensures n < |s| ==> !IsSpace(s[n])
  {
    if |s| > 0 && IsSpace(s[0]) then 1 + LeadingBlanks(s[1..]) else 0
  }

  /** How many blank characters the text ends with. */
  function TrailingBlanks(s: string): (n: nat)
    ensures n <= |s|
    ensures forall k :: |s| - n <= k < |s| ==> IsSpace(s[k])
    ensures n < |s| ==> !IsSpace(s[|s| - n - 1])
  {
    if |s| > 0 && IsSpace(s[|s| - 1]) then 1 + TrailingBlanks(s[..|s| - 1]) else 0
  }

  /** A CharField strips surrounding whitespace before validating: the
      result is the slice of the text between its leading and its trailing
      blanks, and it is empty exactly when the text is all blank. */
  function Strip(s: string): (r: string)
    ensures |r| <= |s|
    ensures |r| > 0 ==> !IsSpace(r[0]) && !IsSpace(r[|r| - 1])
    ensures exists i, j ::
              && 0 <= i <= j <= |s| && r == s[i..j]
              && (forall k :: 0 <= k < i ==> IsSpace(s[k]))
              && (forall k :: j <= k < |s| ==> IsSpace(s[k]))
    ensures r == [] <==> forall k :: 0 <= k < |s| ==> IsSpace(s[k])
  {
    var i := LeadingBlanks(s);
    var j := |s| - TrailingBlanks(s[i..]);
    assert forall k :: j <= k < |s| ==> s[k] == s[i..][k - i];
    assert i < |s| ==> !IsSpace(s[i..][0]);
    s[i..j]
  }

  /** A text with no surrounding blanks is left as it is. */
  lemma StripKeepsTrimmed(s: string)
    requires |s| > 0 && !IsSpace(s[0]) && !IsSpace(s[|s| - 1])
    ensures Strip(s) == s
  {
    assert LeadingBlanks(s) == 0;
    assert TrailingBlanks(s[0..]) == 0;
    assert s[0..|s|] == s;
  }

  /** A description of blanks only never passes the device form. */
  lemma BlankDescriptionRejected(db: Db, owner: Owner, input: DeviceInput)
    requires forall k :: 0 <= k < |input.description| ==> IsSpace(input.description[k])
    ensures !DeviceFormOk(db, owner, input)
  {
    assert Strip(input.description) == [];
  }

  /** DeviceForm validation: a non-blank description of at most 100
      characters with no NUL character (every CharField prohibits them),
      one of the account's battery types, and a capacity that satisfies the
      column's validators. */
  predicate DeviceFormOk(db: Db, owner: Owner, input: DeviceInput) {
    && 1 <= |Strip(input.description)| <= MaxDescription
    && '\0' !in Strip(input.description)
    && input.batteryType.Some? && input.batteryType.value in db.types
    && db.types[input.batteryType.value].owner == owner
    && input.capacity.Some? && CapacityInRange(input.capacity.value)
  }

  /** The device a valid form saves, with the requesting account as owner. */
  function DeviceOf(db: Db, owner: Owner, input: DeviceInput): (d: Device)
    requires DeviceFormOk(db, owner, input)
    ensures CapacityInRange(d.capacity) && d.batteryType in db.types
    ensures d.owner == owner && db.types[d.batteryType].owner == owner
    ensures d.description == Strip(input.description)
    ensures d.batteryType == input.batteryType.value && d.capacity == input.capacity.value
  {
    Device(Strip(input.description), input.batteryType.value, input.capacity.value, owner)
  }

  // ---------------------------------------------------------------------
  // The filter forms
  // ---------------------------------------------------------------------

  /** One option of a select: the submitted value and the text shown. The
      prompt's value is the text '0'; an account row's value is its id. */
  datatype Choice = Choice(value: int, text: string)

  const TypePrompt := "Select a battery type"
  const ModelPrompt := "Select a battery model"

  function OwnedTypes(db: Db, owner: Owner): set<Pk> {
    set k | k in db.types && db.types[k].owner == owner
  }

  function OwnedModels(db: Db, owner: Owner): set<Pk> {
    set k | k in db.models && db.models[k].owner == owner
  }

  /** The options for the given keys, labelled by `str()` of their rows. */
  function Options(keys: seq<Pk>, labels: map<Pk, string>): (r: seq<Choice>)
    requires forall k :: k in keys ==> k in labels
    ensures |r| == |keys|
    ensures forall i :: 0 <= i < |r| ==> r[i] == Choice(keys[i], labels[keys[i]])
  {
    if keys == [] then []
    else
      assert keys[0] in keys;
      assert forall k :: k in keys[1..] ==> k in keys;
      [Choice(keys[0], labels[keys[0]])] + Options(keys[1..], labels)
  }

  /** The options for the keys of `owned` in ascending order: each one once,
      and nothing else. */
  lemma {:induction false} OptionsOfAscending(owned: set<Pk>, labels: map<Pk, string>)
    requires owned <= labels.Keys
    ensures var r := Options(Ascending(owned), labels);
      && |r| == |owned|
      && (forall i :: 0 <= i < |r| ==> r[i].value in owned && r[i].text == labels[r[i].value])
      && (forall k :: k in owned ==> exists i :: 0 <= i < |r| && r[i].value == k)
      && (forall i, j :: 0 <= i < j < |r| ==> r[i].value < r[j].value)
  {
    var keys := Ascending(owned);
    var r := Options(keys, labels);
    forall k | k in owned ensures exists i :: 0 <= i < |r| && r[i].value == k {
      assert k in keys;
      var i :| 0 <= i < |keys| && keys[i] == k;
      assert r[i].value == k;
    }
    forall i | 0 <= i < |r| ensures r[i].value in owned {
      assert keys[i] in keys;
    }
  }

  function TypeLabels(db: Db): (m: map<Pk, string>)
    ensures m.Keys == db.types.Keys
    ensures forall k :: k in m ==> m[k] == TypeLabel(db.types[k])
  {
    map k | k in db.types :: TypeLabel(db.types[k])
  }

  function ModelLabels(db: Db): (m: map<Pk, string>)
    ensures m.Keys == db.models.Keys
    ensures forall k :: k in m ==> m[k] == ModelLabel(db.models[k])
  {
    map k | k in db.models :: ModelLabel(db.models[k])
  }

  /** The account's battery types, one option each, in query order. */
  function TypeRows(db: Db, owner: Owner): seq<Choice> {
    Options(Ascending(OwnedTypes(db, owner)), TypeLabels(db))
  }

  /** The account's battery models, one option each, in query order. */
  function ModelRows(db: Db, owner: Owner): seq<Choice> {
    Options(Ascending(OwnedModels(db, owner)), ModelLabels(db))
  }

  /** The type options list each of the account's battery types exactly
      once, labelled by its code, in ascending id order. */
  lemma TypeRowsListOwnedTypes(db: Db, owner: Owner)
    ensures var r := TypeRows(db, owner);
      && |r| == |OwnedTypes(db, owner)|
      && (forall i :: 0 <= i < |r| ==>
            r[i].value in db.types && db.types[r[i].value].owner == owner && r[i].text == db.types[r[i].value].code)
      && (forall k :: k in OwnedTypes(db, owner) ==> exists i :: 0 <= i < |r| && r[i].value == k)
      && (forall i, j :: 0 <= i < j < |r| ==> r[i].value < r[j].value)
  {
    OptionsOfAscending(OwnedTypes(db, owner), TypeLabels(db));
  }

  /** The model options list each of the account's battery models exactly
      once, labelled by its description, in ascending id order. */
  lemma ModelRowsListOwnedModels(db: Db, owner: Owner)
    ensures var r := ModelRows(db, owner);
      && |r| == |OwnedModels(db, owner)|
      && (forall i :: 0 <= i < |r| ==>
            r[i].value in db.models && db.models[r[i].value].owner == owner && r[i].text == db.models[r[i].value].description)
      && (forall k :: k in OwnedModels(db, owner) ==> exists i :: 0 <= i < |r| && r[i].value == k)
      && (forall i, j :: 0 <= i < j < |r| ==> r[i].value < r[j].value)
  {
    OptionsOfAscending(OwnedModels(db, owner), ModelLabels(db));
  }

  /** A query-string parameter: missing, present but empty, the decimal
      numeral of a natural number, or any other text (which no option's
      value matches). */
  datatype Param = Absent | Blank | Numeral(n: nat) | Junk

  /** Python truthiness of request.GET.get(name). */
  predicate Given(p: Param) {
    p.Numeral? || p.Junk?
  }

  /** A cleaned optional ChoiceField: '' or the chosen option's value. */
  datatype Selection = Unselected | Picked(value: int)

  /** ChoiceField(required=False).clean: empty input is accepted as '';
      anything else must be the value of one of the options. None means the
      field is in error. */
  function CleanChoice(choices: seq<Choice>, p: Param): (r: Option<Selection>)
    ensures r == Some(Unselected) <==> !Given(p)
    ensures r.Some? && r.value.Picked? <==> p.Numeral? && exists c :: c in choices && c.value == p.n
    ensures r.Some? && r.value.Picked? ==> r.value.value == p.n
  {
    match p
    case Absent => Some(Unselected)
    case Blank => Some(Unselected)
    case Numeral(n) => if exists c :: c in choices && c.value == n then Some(Picked(n)) else None
    case Junk => None
  }

  /** BatteryAssignmentFormFilter: a battery type and a battery model
      select, each headed by a prompt whose value is '0'. */
  class AssignmentFilterForm {
    var typeChoices: seq<Choice>
    var modelChoices: seq<Choice>

    constructor (db: Db, owner: Owner)
      ensures typeChoices == [Choice(0, TypePrompt)] + TypeRows(db, owner)
      ensures modelChoices == [Choice(0, ModelPrompt)] + ModelRows(db, owner)
    {
      var choices := TypeRows(db, owner);
      choices := [Choice(0, TypePrompt)] + choices;
      typeChoices := choices;
      choices := ModelRows(db, owner);
      choices := [Choice(0, ModelPrompt)] + choices;
      modelChoices := choices;
    }
  }

  /** DeviceFormFilter: a battery type select headed by a prompt whose
      value is '0'. */
  class DeviceFilterForm {
    var typeChoices: seq<Choice>

    constructor (db: Db, owner: Owner)
      ensures typeChoices == [Choice(0, TypePrompt)] + TypeRows(db, owner)
    {
      var choices := TypeRows(db, owner);
      choices := [Choice(0, TypePrompt)] + choices;
      typeChoices := choices;
    }
  }

  /** The values a select with a '0' prompt over `rows` accepts. */
  lemma {:induction false} PromptedChoiceAccepts(prompt: string, rows: seq<Choice>, owned: set<Pk>, n: nat)
    requires forall i :: 0 <= i < |rows| ==> rows[i].value in owned
    requires forall k :: k in owned ==> exists i :: 0 <= i < |rows| && rows[i].value == k
    ensures CleanChoice([Choice(0, prompt)] + rows, Numeral(n)) == Some(Picked(n)) <==> n == 0 || n in owned
  {
    var choices := [Choice(0, prompt)] + rows;
    if n == 0 {
      assert choices[0] in choices;
    } else if n in owned {
      var i :| 0 <= i < |rows| && rows[i].value == n;
      assert choices[i + 1] in choices;
    }
  }

  /** A battery type filter accepts exactly '0' and the ids of the account's
      own battery types. */
  lemma TypeFilterAccepts(db: Db, owner: Owner, n: nat)
    ensures CleanChoice([Choice(0, TypePrompt)] + TypeRows(db, owner), Numeral(n)) == Some(Picked(n))
      <==> n == 0 || n in OwnedTypes(db, owner)
  {
    TypeRowsListOwnedTypes(db, owner);
    PromptedChoiceAccepts(TypePrompt, TypeRows(db, owner), OwnedTypes(db, owner), n);
  }

  /** A battery model filter accepts exactly '0' and the ids of the
      account's own battery models. */
  lemma ModelFilterAccepts(db: Db, owner: Owner, n: nat)
    ensures CleanChoice([Choice(0, ModelPrompt)] + ModelRows(db, owner), Numeral(n)) == Some(Picked(n))
      <==> n == 0 || n in OwnedModels(db, owner)
  {
    ModelRowsListOwnedModels(db, owner);
    PromptedChoiceAccepts(ModelPrompt, ModelRows(db, owner), OwnedModels(db, owner), n);
  }
}
