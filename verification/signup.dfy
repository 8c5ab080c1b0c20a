/** The self-service signup page: the step indicator, the password
    strength meter, the account form's checks, the settings a plan
    produces, and the guard in front of the create-business request. The
    page's DOM handling is not modelled; each form field is a string
    parameter. */
module Signup {
  import opened Js
  import opened Text
  import Maps
  import Accounts
  import Provisioning

  // ---------------------------------------------------------------------
  // Step indicator

  datatype StepMark = Completed | Active | Plain

  /** Step n (counting from 1) against the current step. */
  function Mark(stepNum: int, current: int): StepMark
  {
    if stepNum < current then Completed else if stepNum == current then Active else Plain
  }

  /** The marks of `count` step elements: the steps before the current
      one are completed, the current one is the only active one, and every
      later one is plain. */
  function StepMarks(count: nat, current: int): (marks: seq<StepMark>)
    ensures |marks| == count
    ensures forall i, j :: 0 <= i < j < count && marks[j] == Completed ==> marks[i] == Completed
    ensures forall i, j :: 0 <= i < count && 0 <= j < count && marks[i] == Active && marks[j] == Active ==> i == j
    ensures 1 <= current <= count ==> marks[current - 1] == Active
    ensures forall i :: 0 <= i < count ==> (marks[i] == Completed <==> i < current - 1)
    ensures forall i :: 0 <= i < count ==> (marks[i] == Plain <==> i >= current)
  {
    seq(count, i requires 0 <= i < count => Mark(i + 1, current))
  }

  // ---------------------------------------------------------------------
  // Password strength

  predicate HasLower(p: string) { exists i :: 0 <= i < |p| && IsLower(p[i]) }
  predicate HasUpper(p: string) { exists i :: 0 <= i < |p| && IsUpper(p[i]) }
  predicate HasDigit(p: string) { exists i :: 0 <= i < |p| && IsDigit(p[i]) }

  /** `/[^a-zA-Z\d]/`: a character that is not an ASCII letter or digit. */
  predicate HasOther(p: string) { exists i :: 0 <= i < |p| && !IsAlnum(p[i]) }

  function Point(b: bool): nat { if b then 1 else 0 }

  /** The number of character-class criteria met: both letter cases, a
      digit, a character that is neither. */
  function Classes(p: string): (n: nat)
    ensures n <= 3
  {
    Point(HasLower(p) && HasUpper(p)) + Point(HasDigit(p)) + Point(HasOther(p))
  }

  /** The number of criteria met: at least 8 code units, at least 12, and
      the character classes. */
  function Score(p: string): (n: nat)
    ensures n <= 5
  {
    Point(Utf16Length(p) >= 8) + Point(Utf16Length(p) >= 12) + Classes(p)
  }

  /** The character classes a password of this length needs for the medium
      class: all three below 8 code units, two below 12, one from 12. */
  function MediumClasses(len: nat): nat
  {
    if len < 8 then 3 else if len < 12 then 2 else 1
  }

  datatype Strength = Unrated | Weak | Medium | Strong

  /** The meter's class: none for an empty password, then weak up to two
      points, medium at three, strong from four. */
  function PasswordStrength(p: string): (c: Strength)
    ensures c == Unrated <==> |p| == 0
    ensures c == Strong ==> Utf16Length(p) >= 8
    ensures c == Strong && Utf16Length(p) < 12 ==> (HasLower(p) && HasUpper(p)) && HasDigit(p) && HasOther(p)
    ensures c == Weak ==> Utf16Length(p) < 12 || !(HasLower(p) && HasUpper(p)) || !HasDigit(p) || !HasOther(p)
    ensures c == Strong <==> |p| > 0 && Classes(p) > MediumClasses(Utf16Length(p))
    ensures c == Medium <==> |p| > 0 && Classes(p) == MediumClasses(Utf16Length(p))
    ensures c == Weak <==> |p| > 0 && Classes(p) < MediumClasses(Utf16Length(p))
  {
    if |p| == 0 then Unrated
    else
      var s := Score(p);
      if s <= 2 then Weak else if s <= 3 then Medium else Strong
  }

  function Rank(c: Strength): nat
  {
    match c
    case Unrated => 0
    case Weak => 1
    case Medium => 2
    case Strong => 3
  }

  /** Typing one more character never lowers the meter. */
  lemma StrengthNeverDrops(p: string, c: char)
    ensures Rank(PasswordStrength(p + [c])) >= Rank(PasswordStrength(p))
  {
    var q := p + [c];
    Utf16LengthAppend(p, [c]);
    if HasLower(p) {
      var i :| 0 <= i < |p| && IsLower(p[i]);
      assert q[i] == p[i];
    }
    if HasUpper(p) {
      var i :| 0 <= i < |p| && IsUpper(p[i]);
      assert q[i] == p[i];
    }
    if HasDigit(p) {
      var i :| 0 <= i < |p| && IsDigit(p[i]);
      assert q[i] == p[i];
    }
    if HasOther(p) {
      var i :| 0 <= i < |p| && !IsAlnum(p[i]);
      assert q[i] == p[i];
    }
    assert Score(q) >= Score(p);
  }

  /** Length is counted in code units: six characters, two of them
      astral, reach the 8-unit criterion and rate strong. */
  lemma AstralCharactersCountTwice()
    ensures PasswordStrength("aA1!\U{1F600}\U{1F600}") == Strong
  {
    var p := "aA1!\U{1F600}\U{1F600}";
    assert Utf16Length(p) == 8;
    assert IsLower(p[0]) && IsUpper(p[1]) && IsDigit(p[2]) && !IsAlnum(p[3]);
  }

  /** A password of ASCII letters and digits that starts with a lower-case
      letter, an upper-case letter and a digit meets two character classes,
      and is as long in code units as in characters. */
  lemma TwoClassesAlnum(p: string)
    requires |p| >= 3 && IsLower(p[0]) && IsUpper(p[1]) && IsDigit(p[2])
    requires forall i :: 0 <= i < |p| ==> IsAlnum(p[i])
    ensures Utf16Length(p) == |p| && Classes(p) == 2
  {
    Utf16LengthPlain(p);
  }

  /** Two letter cases and a digit make twelve code units strong. */
  lemma MixedTwelveStrong()
    ensures PasswordStrength("aB1xxxxxxxxx") == Strong
  {
    TwoClassesAlnum("aB1xxxxxxxxx");
  }

  /** The same two classes make eight code units medium. */
  lemma MixedEightMedium()
    ensures PasswordStrength("aB1xxxxx") == Medium
  {
    TwoClassesAlnum("aB1xxxxx");
  }

  // ---------------------------------------------------------------------
  // Account form

  const CredentialsRequired := "Email and password are required"
  const PasswordTooShort := "Password must be at least 8 characters"

  /** The account form either shows an error or sends the registration
      request with the trimmed email, the password as typed and the
      trimmed name, null when blank. */
  datatype AccountStep = AccountError(message: string) | SendRegistration(body: Value)

  function RegistrationBody(email: string, password: string, name: string): Value
  {
    Obj(map["email" := Str(email), "password" := Str(password), "name" := if |name| > 0 then Str(name) else Null])
  }

  lemma RegistrationBodyFields(email: string, password: string, name: string)
    ensures var body := RegistrationBody(email, password, name);
            && Prop(body, "email") == Str(email)
            && Prop(body, "password") == Str(password)
            && Prop(body, "name") == (if |name| > 0 then Str(name) else Null)
  {
    var m := RegistrationBody(email, password, name).fields;
    assert "email" in m && "password" in m && "name" in m;
  }

  function AccountSubmit(emailInput: string, password: string, nameInput: string): (r: AccountStep)
    ensures r.AccountError? <==> |Trim(emailInput)| == 0 || Utf16Length(password) < 8
    ensures r.AccountError? ==>
              r.message == (if |Trim(emailInput)| == 0 || |password| == 0 then CredentialsRequired else PasswordTooShort)
    ensures r.SendRegistration? ==>
              && Prop(r.body, "email") == Str(Trim(emailInput))
              && Prop(r.body, "password") == Str(password)
              && Prop(r.body, "name") == (if |Trim(nameInput)| > 0 then Str(Trim(nameInput)) else Null)
  {
    var email := Trim(emailInput);
    var name := Trim(nameInput);
    if |email| == 0 || |password| == 0 then AccountError(CredentialsRequired)
    else if Utf16Length(password) < 8 then AccountError(PasswordTooShort)
    else
      RegistrationBodyFields(email, password, name);
      SendRegistration(RegistrationBody(email, password, name))
  }

  /** A registration the page sends never trips the server's own field
      checks: email and password are present and the password is long
      enough. */
  lemma SentRegistrationPassesServerChecks(emailInput: string, password: string, nameInput: string,
                                           parse: string -> Option<real>)
    requires AccountSubmit(emailInput, password, nameInput).SendRegistration?
    ensures var body := AccountSubmit(emailInput, password, nameInput).body;
            && !Nullish(body)
            && Truthy(Prop(body, "email")) && Truthy(Prop(body, "password"))
            && !Accounts.TooShort(Prop(body, "password"), parse)
            && Prop(body, "password").Str? && Utf16Length(Prop(body, "password").s) >= 8
  {
  }

  // ---------------------------------------------------------------------
  // Plan settings

  /** parseInt(s) with no radix: leading white space, an optional sign, then
      the longest run of decimal digits; None stands for NaN. */
  function ParseInt(s: string): (r: Option<int>)
    ensures r.Some? ==> exists k :: 0 <= k < |s| && IsDigit(s[k])
  {
    var t := TrimStart(s);
    var r := if |t| > 0 && (t[0] == '-' || t[0] == '+') then Digits(t, 1) else Digits(t, 0);
    if r.Some? then
      assert IsDigit(t[r.value.1]) && t[r.value.1] == s[|s| - |t| + r.value.1];
      var v: int := r.value.0;
      Some(if |t| > 0 && t[0] == '-' then -v else v)
    else None
  }

  /** The value of the run of digits at j, with the run's first index; None
      when no digit stands there. */
  function Digits(t: string, j: nat): (r: Option<(nat, nat)>)
    requires j <= |t|
    ensures r.Some? ==> r.value.1 == j < |t| && IsDigit(t[j])
  {
    var n := Maps.Run(t, j, IsDigit);
    if n == 0 then None else Some((DigitsValue(t[j..j + n]), j))
  }

  /** The decimal rendering of a count reads back as that count. */
  lemma ParseIntOfNatToString(n: nat)
    ensures ParseInt(NatToString(n)) == Some(n)
  {
    ParseIntOfDigits(NatToString(n));
    DigitsValueOfNatToString(n);
  }

  /** A non-empty run of digits reads back as its value. */
  lemma ParseIntOfDigits(s: string)
    requires |s| > 0 && forall i :: 0 <= i < |s| ==> IsDigit(s[i])
    ensures ParseInt(s) == Some(DigitsValue(s))
  {
    assert TrimStart(s) == s by {
      assert !IsSpace(s[0]);
    }
    assert !(s[0] == '-' || s[0] == '+') by {
      assert IsDigit(s[0]);
    }
    DigitsToEnd(s);
  }

  lemma DigitsToEnd(s: string)
    requires |s| > 0 && forall i :: 0 <= i < |s| ==> IsDigit(s[i])
    ensures Digits(s, 0) == Some((DigitsValue(s), 0))
  {
    DigitRunToEnd(s);
    assert s[0..0 + |s|] == s;
  }

  lemma DigitRunToEnd(s: string)
    requires forall i :: 0 <= i < |s| ==> IsDigit(s[i])
    ensures Maps.Run(s, 0, IsDigit) == |s|
  {
  }

  /** `parseInt(v) || d`: NaN and zero fall back to the default. */
  function IntOr(v: Option<int>, d: int): int
  {
    if v.None? || v.value == 0 then d else v.value
  }

  /** The settings a signup sends with its new business. */
  datatype PlanConfig = PlanConfig(discountEnabled: bool, discountPercentage: int, discountValidDays: int,
                                   referralEnabled: bool, reviewThreshold: int, sheetScriptUrl: string)

  /** The free plan's fixed settings: discounts and referrals off. */
  const FreeConfig := PlanConfig(false, 10, 30, false, 5, "")

  /** The settings form's fields as the page reads them. */
  datatype SettingsForm = SettingsForm(discountChecked: bool, percentage: string, days: string,
                                       referralChecked: bool, threshold: string, sheetUrl: string)

  /** The free plan ignores the form; any other selection reads it: a
      field read as a non-zero integer is taken as typed, and a blank,
      non-numeric or zero field gets the plan default. */
  function BuildConfig(selectedPlan: string, form: SettingsForm): (c: PlanConfig)
    ensures selectedPlan == "free" ==> c == FreeConfig
    ensures selectedPlan != "free" ==>
              && c.discountEnabled == form.discountChecked && c.referralEnabled == form.referralChecked
              && c.sheetScriptUrl == Trim(form.sheetUrl)
              && (ParseInt(form.percentage) in {None, Some(0)} ==> c.discountPercentage == 10)
              && (ParseInt(form.days) in {None, Some(0)} ==> c.discountValidDays == 30)
              && (ParseInt(form.threshold) in {None, Some(0)} ==> c.reviewThreshold == 5)
              && (forall n :: ParseInt(form.percentage) == Some(n) && n != 0 ==> c.discountPercentage == n)
              && (forall n :: ParseInt(form.days) == Some(n) && n != 0 ==> c.discountValidDays == n)
              && (forall n :: ParseInt(form.threshold) == Some(n) && n != 0 ==> c.reviewThreshold == n)
    ensures c.discountPercentage != 0 && c.discountValidDays != 0 && c.reviewThreshold != 0
  {
    if selectedPlan == "free" then FreeConfig
    else PlanConfig(form.discountChecked, IntOr(ParseInt(form.percentage), 10), IntOr(ParseInt(form.days), 30),
                    form.referralChecked, IntOr(ParseInt(form.threshold), 5), Trim(form.sheetUrl))
  }

  /** The settings as the JSON object the request carries. */
  function ConfigValue(c: PlanConfig): map<string, Value>
  {
    map["discount_enabled" := Bool(c.discountEnabled),
        "discount_percentage" := Num(c.discountPercentage as real),
        "discount_valid_days" := Num(c.discountValidDays as real),
        "referral_enabled" := Bool(c.referralEnabled),
        "review_threshold" := Num(c.reviewThreshold as real),
        "sheet_script_url" := Str(c.sheetScriptUrl)]
  }

  // ---------------------------------------------------------------------
  // Create business

  const MissingDataMessage := "Missing business or configuration data"

  datatype CreateStep = MissingData(message: string) | SendCreate(body: Value)

  /** The business found on the Maps step and the settings, as the body
      of the create request; without either no request is made. */
  function CreateBusiness(business: Option<Maps.Details>, config: Option<PlanConfig>): (r: CreateStep)
    ensures r.MissingData? <==> business.None? || config.None?
    ensures r.MissingData? ==> r.message == MissingDataMessage
    ensures r.SendCreate? ==>
              && Prop(r.body, "placeId") == Str(business.value.placeId)
              && Prop(r.body, "name") == Str(business.value.name)
              && Prop(r.body, "category") == Str(business.value.category)
              && Prop(r.body, "googleMapsUrl") == Str(business.value.mapsUrl)
              && Prop(r.body, "heroImage") ==
                   (if business.value.heroImage.Some? then Str(business.value.heroImage.value) else Null)
              && Prop(r.body, "config") == Obj(ConfigValue(config.value))
              && r.body.Obj?
              && r.body.fields.Keys == {"placeId", "name", "category", "googleMapsUrl", "heroImage", "config"}
  {
    if business.None? || config.None? then MissingData(MissingDataMessage)
    else
      var d := business.value;
      SendCreate(Obj(map[
        "placeId" := Str(d.placeId),
        "name" := Str(d.name),
        "category" := Str(d.category),
        "googleMapsUrl" := Str(d.mapsUrl),
        "heroImage" := if d.heroImage.Some? then Str(d.heroImage.value) else Null,
        "config" := Obj(ConfigValue(config.value))]))
  }

  /** The create handler stores exactly the settings the page sends: the
      request names all six keys, so none of the handler's defaults is
      left in. */
  lemma CreatedBusinessKeepsSettings(business: Maps.Details, config: PlanConfig)
    ensures var body := CreateBusiness(Some(business), Some(config)).body;
            Js.Spread(Provisioning.CreateDefaults, Provisioning.SpreadSource(Prop(body, "config")))
              == ConfigValue(config)
  {
    var m := ConfigValue(config);
    var r := Js.Spread(Provisioning.CreateDefaults, m);
    assert Provisioning.CreateDefaults.Keys <= m.Keys;
    assert r.Keys == m.Keys;
  }

  /** A business found on the Maps step with a name and a place id passes
      the create handler's required-field check. */
  lemma CreateRequestHasRequiredFields(business: Maps.Details, config: PlanConfig)
    requires |business.name| > 0 && |business.placeId| > 0
    ensures var body := CreateBusiness(Some(business), Some(config)).body;
            && !Nullish(body) && Truthy(Prop(body, "name")) && Truthy(Prop(body, "placeId"))
            && Prop(body, "name").Str?
  {
  }
}
