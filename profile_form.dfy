/**
 * The owner's profile form: loading the caller's profile into it, editing a
 * field, the client-side validator, and the choice between updating the loaded
 * profile and creating a new one.
 */
module ProfileForm {
  import opened Common
  import opened JsValue
  import opened Seqs
  import opened Text
  import opened ProfileModel
  import opened ProfileSpec

  datatype Field = FactoryName | OwnerName | ContactNumber | Address | CommodityType | PricePerKilo | EffectiveDate | OperatingHours

  /** The form state. The price is whatever was typed, or the stored number after loading. */
  datatype Form = Form(
    factoryName: string,
    ownerName: string,
    contactNumber: string,
    address: string,
    commodityType: string,
    pricePerKilo: Raw,
    effectiveDate: string,
    operatingHours: string)

  /** The per-field error messages. */
  type Errors = map<Field, string>

  /** The form before anything is loaded. */
  const Blank := Form("", "", "", "", "Tea", Str(""), "", "")

  /** The value a field holds, as a raw JavaScript value. */
  function Value(form: Form, f: Field): Raw {
    match f
    case FactoryName => Str(form.factoryName)
    case OwnerName => Str(form.ownerName)
    case ContactNumber => Str(form.contactNumber)
    case Address => Str(form.address)
    case CommodityType => Str(form.commodityType)
    case PricePerKilo => form.pricePerKilo
    case EffectiveDate => Str(form.effectiveDate)
    case OperatingHours => Str(form.operatingHours)
  }

  // ---------------------------------------------------------------- load

  /** The profile loaded by GET /me, if any, and the form filled from it. */
  function Load(me: Reply): (r: (Option<ProfileId>, Form))
    ensures !me.OneProfile? ==> r == (None, Blank)
    ensures me.OneProfile? ==> r.0 == Some(me.profile.id)
    ensures me.OneProfile? ==>
              && 'T' !in r.1.effectiveDate && |r.1.effectiveDate| <= |me.profile.effectiveDate|
              && r.1.effectiveDate == me.profile.effectiveDate[..|r.1.effectiveDate|]
              && (|r.1.effectiveDate| < |me.profile.effectiveDate| ==> me.profile.effectiveDate[|r.1.effectiveDate|] == 'T')
    ensures me.OneProfile? ==> r.1.pricePerKilo == Num(me.profile.pricePerKilo)
    ensures me.OneProfile? ==>
              && r.1.factoryName == me.profile.factoryName
              && r.1.ownerName == me.profile.ownerName
              && r.1.contactNumber == me.profile.contactNumber
              && r.1.address == me.profile.address
              && r.1.commodityType == CommodityName(me.profile.commodityType)
              && r.1.operatingHours == me.profile.operatingHours
  {
    match me
    case OneProfile(p) =>
      (Some(p.id),
       Form(p.factoryName, p.ownerName, p.contactNumber, p.address, CommodityName(p.commodityType),
            Num(p.pricePerKilo), BeforeT(p.effectiveDate), p.operatingHours))
    case _ => (None, Blank)
  }

  /** Saving a loaded form unchanged hands the server back the stored commodity and the stored price. */
  lemma LoadRoundTrip(me: Reply)
    requires me.OneProfile?
    ensures ParseCommodity(Load(me).1.commodityType) == Some(me.profile.commodityType)
    ensures ToNumber(Load(me).1.pricePerKilo) == Val(me.profile.pricePerKilo)
  {
    CommodityRoundTrip(me.profile.commodityType);
  }

  // ---------------------------------------------------------------- edit

  function DigitTest(): char -> bool {
    (c: char) => IsDigit(c)
  }

  /** `value.replace(/\D/g, "").slice(0, 10)`: the first ten digits of what was typed. */
  function Sanitize(value: string): (r: string)
    ensures AllDigits(r) && |r| <= 10
    ensures var digits := Filter(value, DigitTest()); |r| <= |digits| && r == digits[..|r|] && (|r| < 10 ==> r == digits)
  {
    var digits := Filter(value, DigitTest());
    var r := digits[..Min(10, |digits|)];
    assert forall i :: 0 <= i < |r| ==> r[i] in digits;
    r
  }

  /** Text that is already at most ten digits passes through the sanitiser unchanged. */
  lemma SanitizeKeepsNumber(value: string)
    requires AllDigits(value) && |value| <= 10
    ensures Sanitize(value) == value
  {
    FilterKeepsAll(value, DigitTest());
  }

  /** Sanitising twice is sanitising once. */
  lemma SanitizeIdempotent(value: string)
    ensures Sanitize(Sanitize(value)) == Sanitize(value)
  {
    SanitizeKeepsNumber(Sanitize(value));
  }

  /** `{ ...form, [name]: value }`. */
  function Assign(form: Form, name: Field, value: string): Form {
    match name
    case FactoryName => form.(factoryName := value)
    case OwnerName => form.(ownerName := value)
    case ContactNumber => form.(contactNumber := value)
    case Address => form.(address := value)
    case CommodityType => form.(commodityType := value)
    case PricePerKilo => form.(pricePerKilo := Str(value))
    case EffectiveDate => form.(effectiveDate := value)
    case OperatingHours => form.(operatingHours := value)
  }

  /**
   * `handleChange`: store the typed value and clear that field's error. An edit changes the
   * edited field only: the contact number to the first ten digits typed, any other field to the
   * text verbatim. It clears that field's error and no other.
   */
  function HandleChange(form: Form, errors: Errors, name: Field, value: string): (r: (Form, Errors))
    ensures forall f :: f != name ==> Value(r.0, f) == Value(form, f)
    ensures name == ContactNumber ==> Value(r.0, name) == Str(Sanitize(value))
    ensures name != ContactNumber ==> Value(r.0, name) == Str(value)
    ensures forall f :: f != name ==> (f in r.1 <==> f in errors) && (f in errors ==> r.1[f] == errors[f])
    ensures name in r.1 <==> name in errors
    ensures name in r.1 ==> r.1[name] == ""
  {
    var stored := if name == ContactNumber then Sanitize(value) else value;
    var errors' := if name in errors && errors[name] != "" then errors[name := ""] else errors;
    (Assign(form, name, stored), errors')
  }

  /** A commodity button: sets the commodity and leaves the errors alone. */
  function ChooseCommodity(form: Form, c: Commodity): (r: Form)
    ensures r.commodityType == CommodityName(c)
    ensures forall f :: f != CommodityType ==> Value(r, f) == Value(form, f)
  {
    form.(commodityType := CommodityName(c))
  }

  // ---------------------------------------------------------------- validate

  predicate IsAsciiLetter(c: char) {
    'a' <= c <= 'z' || 'A' <= c <= 'Z'
  }

  /** The characters `\s` matches in a JavaScript regular expression. */
  predicate IsJsSpace(c: char) {
    var n := c as int;
    || 0x09 <= n <= 0x0D || n == 0x20 || n == 0xA0 || n == 0x1680
    || 0x2000 <= n <= 0x200A || n == 0x2028 || n == 0x2029 || n == 0x202F
    || n == 0x205F || n == 0x3000 || n == 0xFEFF
  }

  /** `/^[a-zA-Z\s]+$/`. */
  predicate PersonName(s: string) {
    |s| > 0 && forall i :: 0 <= i < |s| ==> IsAsciiLetter(s[i]) || IsJsSpace(s[i])
  }

  /** `/^\d{10}$/`. */
  predicate TenDigits(s: string) {
    |s| == 10 && AllDigits(s)
  }

  /** `!s || s.length < n`. */
  predicate TooShort(s: string, n: nat) {
    s == "" || |s| < n
  }

  /** `!price || Number(price) <= 0`: missing, or a number that is not positive (`NaN` passes). */
  predicate BadPrice(price: Raw) {
    !Truthy(price) || (ToNumber(price).Val? && ToNumber(price).v <= 0)
  }

  /** `!date || date < today`, comparing the `YYYY-MM-DD` texts. */
  predicate PastDate(date: string, today: string) {
    date == "" || LexLess(date, today)
  }

  /** Whether the validator's rule for field `f` fires; `today` is `YYYY-MM-DD`. */
  predicate Fires(form: Form, today: string, f: Field) {
    match f
    case FactoryName => TooShort(form.factoryName, 3)
    case OwnerName => !PersonName(form.ownerName)
    case ContactNumber => !TenDigits(form.contactNumber)
    case Address => TooShort(form.address, 10)
    case PricePerKilo => BadPrice(form.pricePerKilo)
    case EffectiveDate => PastDate(form.effectiveDate, today)
    case CommodityType => false
    case OperatingHours => false
  }

  function Message(f: Field): string {
    match f
    case FactoryName => "Business name too short"
    case OwnerName => "Invalid name format"
    case ContactNumber => "10-digit mobile required"
    case Address => "Detailed address required"
    case PricePerKilo => "Enter valid price"
    case EffectiveDate => "Date cannot be in past"
    case CommodityType => ""
    case OperatingHours => ""
  }

  /** The position of each rule in the order the validator checks them; the last two have none. */
  function Rank(f: Field): nat {
    match f
    case FactoryName => 0
    case OwnerName => 1
    case ContactNumber => 2
    case Address => 3
    case PricePerKilo => 4
    case EffectiveDate => 5
    case CommodityType => 6
    case OperatingHours => 7
  }

  /** `errors` holds exactly the messages of the first `n` rules that fire. */
  ghost predicate Reported(errors: Errors, form: Form, today: string, n: nat) {
    forall f :: (f in errors <==> Rank(f) < n && Fires(form, today, f)) && (f in errors ==> errors[f] == Message(f))
  }

  /** Checking the next rule keeps `Reported`. */
  lemma ReportOne(prev: Errors, errors: Errors, form: Form, today: string, f: Field)
    requires Reported(prev, form, today, Rank(f))
    requires errors == if Fires(form, today, f) then prev[f := Message(f)] else prev
    ensures Reported(errors, form, today, Rank(f) + 1)
  {
  }

  /** The fields the validator checks, in the order it checks them. */
  const Checked: seq<Field> := [FactoryName, OwnerName, ContactNumber, Address, PricePerKilo, EffectiveDate]

  /** The messages after the first `n` checks. */
  function ErrorsOf(form: Form, today: string, n: nat): Errors
    requires n <= |Checked|
  {
    if n == 0 then map[]
    else
      var prev := ErrorsOf(form, today, n - 1);
      var f := Checked[n - 1];
      if Fires(form, today, f) then prev[f := Message(f)] else prev
  }

  /** After the first `n` checks, the map holds the message of every one of them that fires, and nothing else. */
  lemma {:induction false} ErrorsOfReported(form: Form, today: string, n: nat)
    requires n <= |Checked|
    ensures Reported(ErrorsOf(form, today, n), form, today, n)
  {
    if n > 0 {
      ErrorsOfReported(form, today, n - 1);
      var f := Checked[n - 1];
      assert Rank(f) == n - 1;
      ReportOne(ErrorsOf(form, today, n - 1), ErrorsOf(form, today, n), form, today, f);
    }
  }

  /** Once every rule is checked, the map is empty exactly when no rule fires. */
  lemma ReportAll(errors: Errors, form: Form, today: string)
    requires Reported(errors, form, today, 6)
    ensures forall f :: f in errors <==> Fires(form, today, f)
    ensures forall f :: f in errors ==> errors[f] == Message(f) && errors[f] != ""
    ensures errors == map[] <==> forall f :: !Fires(form, today, f)
  {
    forall f | Fires(form, today, f)
      ensures f in errors
    {
      match f
      case CommodityType =>
      case OperatingHours =>
      case _ =>
    }
    if errors != map[] {
      var f :| f in errors;
    }
  }

  /** `validate`: one message per rule that fires; the form is valid exactly when none fires. */
  method Validate(form: Form, today: string) returns (ok: bool, errors: Errors)
    ensures forall f :: f in errors <==> Fires(form, today, f)
    ensures forall f :: f in errors ==> errors[f] == Message(f) && errors[f] != ""
    ensures ok <==> forall f :: !Fires(form, today, f)
  {
    errors := map[];
    if TooShort(form.factoryName, 3) {
      errors := errors[FactoryName := "Business name too short"];
    }
    assert errors == ErrorsOf(form, today, 1);
    if !PersonName(form.ownerName) {
      errors := errors[OwnerName := "Invalid name format"];
    }
    assert errors == ErrorsOf(form, today, 2);
    if !TenDigits(form.contactNumber) {
      errors := errors[ContactNumber := "10-digit mobile required"];
    }
    assert errors == ErrorsOf(form, today, 3);
    if TooShort(form.address, 10) {
      errors := errors[Address := "Detailed address required"];
    }
    assert errors == ErrorsOf(form, today, 4);
    if BadPrice(form.pricePerKilo) {
      errors := errors[PricePerKilo := "Enter valid price"];
    }
    assert errors == ErrorsOf(form, today, 5);
    if PastDate(form.effectiveDate, today) {
      errors := errors[EffectiveDate := "Date cannot be in past"];
    }
    assert errors == ErrorsOf(form, today, 6);
    ErrorsOfReported(form, today, 6);
    ReportAll(errors, form, today);
    ok := errors == map[];
  }

  /** The validator never looks at the operating hours or the commodity. */
  lemma UncheckedFields(form: Form, today: string, hours: string, commodity: string)
    ensures forall f :: Fires(form.(operatingHours := hours, commodityType := commodity), today, f) == Fires(form, today, f)
  {
  }

  /** A date of today passes the date rule; a price that is not a number passes the price rule. */
  lemma DateAndPriceEdges(form: Form, today: string)
    ensures today != "" && form.effectiveDate == today ==> !Fires(form, today, EffectiveDate)
    ensures form.pricePerKilo == Str("abc") ==> !Fires(form, today, PricePerKilo)
    ensures form.pricePerKilo == Str("-5") || form.pricePerKilo == Num(0) ==> Fires(form, today, PricePerKilo)
  {
    LexLessIrreflexive(today);
    assert !AllDigits("abc") by {
      assert !IsDigit("abc"[0]);
    }
    assert AllDigits("5");
    assert DigitsValue("5") == 5;
  }

  // ---------------------------------------------------------------- save

  /** What `saveProfile` sends. */
  datatype Request = NoRequest | Put(id: ProfileId, body: Form) | Post(body: Form)

  /** `saveProfile`: nothing when validation fails, else PUT to the loaded profile or POST a new one. */
  method SaveProfile(profileId: Option<ProfileId>, form: Form, today: string) returns (req: Request, errors: Errors)
    ensures (exists f :: Fires(form, today, f)) <==> req == NoRequest
    ensures req != NoRequest && profileId.Some? ==> req == Put(profileId.value, form)
    ensures req != NoRequest && profileId.None? ==> req == Post(form)
    ensures forall f :: f in errors <==> Fires(form, today, f)
  {
    var ok;
    ok, errors := Validate(form, today);
    if !ok {
      return NoRequest, errors;
    }
    if profileId.Some? {
      req := Put(profileId.value, form);
    } else {
      req := Post(form);
    }
  }

  /** The JSON body a form becomes: all eight fields, no `userId`. */
  function AsBody(form: Form): (b: Body)
    ensures b.userId.None? && b.pricePerKilo == form.pricePerKilo
  {
    Body(Some(form.factoryName), Some(form.ownerName), Some(form.contactNumber), Some(form.address),
         Some(form.commodityType), form.pricePerKilo, Some(form.effectiveDate), Some(form.operatingHours), None)
  }

  /** Saving the loaded form without touching the price records no new price snapshot. */
  lemma UntouchedPriceKeepsHistory(db: Db, id: ProfileId, caller: UserId, form: Form, now: nat)
    requires Keyed(db) && id in db.profiles
    requires form == Load(OneProfile(db.profiles[id])).1 || form.pricePerKilo == Num(db.profiles[id].pricePerKilo)
    ensures UpdateSpec(db, id, caller, AsBody(form), now).0.history == db.history
  {
  }
}
