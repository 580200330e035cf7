/**
 * The checkout page: the form, the validator that fills the error map field by
 * field, the shipping rule, the input handler, and the submit handler that
 * clears the cart only after the form validates.
 */
module Checkout {
  import opened Wrappers
  import opened Entities
  import opened JsBuiltins
  import opened Helpers
  import opened KeyValueStore
  import opened AppContext

  datatype Field =
    | FirstName | LastName | Email | Phone | Address | District | Province | PostalCode
    | PaymentMethod | CardNumber | ExpiryDate | Cvv | Notes

  datatype FormData = FormData(
    firstName: string, lastName: string, email: string, phone: string, address: string,
    district: string, province: string, postalCode: string, paymentMethod: string,
    cardNumber: string, expiryDate: string, cvv: string, notes: string)
  {
    /** `formData[field]`. */
    function Get(field: Field): string {
      match field
      case FirstName => firstName
      case LastName => lastName
      case Email => email
      case Phone => phone
      case Address => address
      case District => district
      case Province => province
      case PostalCode => postalCode
      case PaymentMethod => paymentMethod
      case CardNumber => cardNumber
      case ExpiryDate => expiryDate
      case Cvv => cvv
      case Notes => notes
    }

    /** `{ ...formData, [field]: value }`. */
    function With(field: Field, value: string): (r: FormData)
      ensures r.Get(field) == value
      ensures forall other :: other != field ==> r.Get(other) == Get(other)
    {
      match field
      case FirstName => this.(firstName := value)
      case LastName => this.(lastName := value)
      case Email => this.(email := value)
      case Phone => this.(phone := value)
      case Address => this.(address := value)
      case District => this.(district := value)
      case Province => this.(province := value)
      case PostalCode => this.(postalCode := value)
      case PaymentMethod => this.(paymentMethod := value)
      case CardNumber => this.(cardNumber := value)
      case ExpiryDate => this.(expiryDate := value)
      case Cvv => this.(cvv := value)
      case Notes => this.(notes := value)
    }
  }

  const InitialForm := FormData("", "", "", "", "", "", "", "", "credit-card", "", "", "", "")

  const RequiredFields: seq<Field> :=
    [FirstName, LastName, Email, Phone, Address, District, Province, PostalCode]

  /** The fields checked only when paying by credit card. */
  predicate IsCardField(field: Field) {
    field == CardNumber || field == ExpiryDate || field == Cvv
  }

  const RequiredText := Text("กรุณากรอกข้อมูล", "This field is required")
  const InvalidEmailText := Text("รูปแบบอีเมลไม่ถูกต้อง", "Invalid email format")
  const InvalidPhoneText := Text("รูปแบบเบอร์โทรไม่ถูกต้อง", "Invalid phone number format")

  /** The error map: a field with an entry has an error message. */
  type Errors = map<Field, string>

  /** `!formData[field].trim()`. */
  predicate Blank(form: FormData, field: Field) {
    Trim(form.Get(field)) == ""
  }

  /** The required check: the required message on a blank required field. */
  function RequiredError(form: FormData, field: Field, message: string): Option<string> {
    if field in RequiredFields && Blank(form, field) then Some(message) else None
  }

  /** The format checks: the invalid-format message on a malformed e-mail or phone replaces `prior`. */
  function FormatError(form: FormData, field: Field, language: string, prior: Option<string>): Option<string> {
    if field == Email && MalformedEmail(form) then Some(GetText(InvalidEmailText, language))
    else if field == Phone && MalformedPhone(form) then Some(GetText(InvalidPhoneText, language))
    else prior
  }

  /** The card checks: with a credit card, the required message on a blank card field replaces `prior`. */
  function CardError(form: FormData, field: Field, message: string, prior: Option<string>): Option<string> {
    if IsCardField(field) && form.paymentMethod == "credit-card" && Blank(form, field) then Some(message)
    else prior
  }

  /**
   * The error `validateForm` leaves on one field: the three checks in the
   * order the validator makes them, each later one overwriting the earlier.
   */
  function ExpectedError(form: FormData, field: Field, language: string): Option<string> {
    var required := GetText(RequiredText, language);
    CardError(form, field, required, FormatError(form, field, language, RequiredError(form, field, required)))
  }

  /** The error map `validateForm` builds. */
  function ValidationErrors(form: FormData, language: string): (r: Errors)
    ensures forall f :: f in r ==> f in RequiredFields || IsCardField(f)
    ensures forall f :: f in r ==>
      || r[f] == GetText(RequiredText, language)
      || (f == Email && r[f] == GetText(InvalidEmailText, language))
      || (f == Phone && r[f] == GetText(InvalidPhoneText, language))
  {
    map field: Field | ExpectedError(form, field, language).Some? :: ExpectedError(form, field, language).value
  }

  /** `errors[field]`: the message the map holds for the field, if any. */
  function Lookup(errors: Errors, field: Field): Option<string> {
    if field in errors then Some(errors[field]) else None
  }

  /** The error map holds, for every field, exactly the error `ExpectedError` names. */
  lemma ErrorsAt(form: FormData, language: string, field: Field)
    ensures Lookup(ValidationErrors(form, language), field) == ExpectedError(form, field, language)
  {
  }

  /**
   * The body of `validateForm` up to `setErrors`: the required fields in turn,
   * then the e-mail and phone formats, then the card fields.
   */
  method CollectErrors(form: FormData, language: string) returns (newErrors: Errors)
    ensures newErrors == ValidationErrors(form, language)
  {
    var required := GetText(RequiredText, language);
    var base := RequiredErrors(form, required);
    var formats := FormatErrors(form, language, base);
    newErrors := CardErrors(form, required, formats);
    SameErrors(newErrors, form, language);
  }

  /** A non-empty e-mail that `isValidEmail` rejects. */
  predicate MalformedEmail(form: FormData) {
    form.email != "" && !IsValidEmail(form.email)
  }

  /** A non-empty phone number that `isValidThaiPhone` rejects. */
  predicate MalformedPhone(form: FormData) {
    form.phone != "" && !IsValidThaiPhone(form.phone)
  }

  /** The e-mail and phone checks: the format message replaces whatever the field had. */
  method FormatErrors(form: FormData, language: string, errors: Errors) returns (newErrors: Errors)
    ensures forall f :: Lookup(newErrors, f) == FormatError(form, f, language, Lookup(errors, f))
  {
    newErrors := errors;
    if form.email != "" && !IsValidEmail(form.email) {
      newErrors := newErrors[Email := GetText(InvalidEmailText, language)];
    }
    if form.phone != "" && !IsValidThaiPhone(form.phone) {
      newErrors := newErrors[Phone := GetText(InvalidPhoneText, language)];
    }
  }

  /** The card checks, made only for `'credit-card'`: the required message on each blank card field. */
  method CardErrors(form: FormData, message: string, errors: Errors) returns (newErrors: Errors)
    ensures forall f :: Lookup(newErrors, f) == CardError(form, f, message, Lookup(errors, f))
  {
    newErrors := errors;
    if form.paymentMethod == "credit-card" {
      if Trim(form.cardNumber) == "" {
        newErrors := newErrors[CardNumber := message];
      }
      if Trim(form.expiryDate) == "" {
        newErrors := newErrors[ExpiryDate := message];
      }
      if Trim(form.cvv) == "" {
        newErrors := newErrors[Cvv := message];
      }
    }
  }

  /** `requiredFields.forEach(...)`: the required message on every blank required field. */
  method RequiredErrors(form: FormData, message: string) returns (newErrors: Errors)
    ensures forall f :: Lookup(newErrors, f) == RequiredError(form, f, message)
  {
    newErrors := map[];
    for i := 0 to |RequiredFields|
      invariant forall f :: Lookup(newErrors, f) == if f in RequiredFields[..i] && Blank(form, f) then Some(message) else None
    {
      var field := RequiredFields[i];
      if Trim(form.Get(field)) == "" {
        newErrors := newErrors[field := message];
      }
      assert RequiredFields[..i + 1] == RequiredFields[..i] + [field];
    }
    assert RequiredFields[..|RequiredFields|] == RequiredFields;
  }

  /** A map that holds the message `ExpectedError` names for every field is the map `validateForm` builds. */
  lemma SameErrors(errors: Errors, form: FormData, language: string)
    requires forall f :: Lookup(errors, f) == ExpectedError(form, f, language)
    ensures errors == ValidationErrors(form, language)
  {
    var expected := ValidationErrors(form, language);
    forall f ensures f in errors <==> f in expected {
      assert Lookup(errors, f) == ExpectedError(form, f, language);
    }
    forall f | f in errors ensures errors[f] == expected[f] {
      assert Lookup(errors, f) == ExpectedError(form, f, language);
    }
  }

  // ---------------------------------------------------------------------------
  // Properties of the validator
  // ---------------------------------------------------------------------------

  /** The e-mail: the invalid-format message when malformed, else the required message when blank. */
  lemma EmailError(form: FormData, language: string)
    ensures Lookup(ValidationErrors(form, language), Email)
         == if MalformedEmail(form) then Some(GetText(InvalidEmailText, language))
            else if Blank(form, Email) then Some(GetText(RequiredText, language))
            else None
  {
    ErrorsAt(form, language, Email);
    assert Email in RequiredFields && !IsCardField(Email);
  }

  /** The phone: the invalid-format message when malformed, else the required message when blank. */
  lemma PhoneError(form: FormData, language: string)
    ensures Lookup(ValidationErrors(form, language), Phone)
         == if MalformedPhone(form) then Some(GetText(InvalidPhoneText, language))
            else if Blank(form, Phone) then Some(GetText(RequiredText, language))
            else None
  {
    ErrorsAt(form, language, Phone);
    assert Phone in RequiredFields && !IsCardField(Phone);
  }

  /**
   * Each required field other than the e-mail and the phone has an error
   * exactly when it is blank after trimming, and the error is the required
   * message.
   */
  lemma RequiredErrorIffBlank(form: FormData, language: string, field: Field)
    requires field in RequiredFields && field != Email && field != Phone
    ensures field in ValidationErrors(form, language) <==> Blank(form, field)
    ensures field in ValidationErrors(form, language) ==>
              ValidationErrors(form, language)[field] == GetText(RequiredText, language)
  {
    var errors := ValidationErrors(form, language);
    ErrorsAt(form, language, field);
    assert !IsCardField(field);
    assert FormatError(form, field, language, RequiredError(form, field, GetText(RequiredText, language)))
        == RequiredError(form, field, GetText(RequiredText, language));
    assert Lookup(errors, field) == RequiredError(form, field, GetText(RequiredText, language));
  }

  /**
   * The e-mail has an error exactly when it is blank or malformed; a non-empty
   * malformed address gets the invalid-format message even when it is blank
   * after trimming. The phone likewise.
   */
  lemma FormatErrorsOverrideRequired(form: FormData, language: string)
    ensures var errors := ValidationErrors(form, language);
      && (Email in errors <==> Blank(form, Email) || !IsValidEmail(form.email))
      && (form.email != "" && !IsValidEmail(form.email) ==> errors[Email] == GetText(InvalidEmailText, language))
      && (Phone in errors <==> Blank(form, Phone) || !IsValidThaiPhone(form.phone))
      && (form.phone != "" && !IsValidThaiPhone(form.phone) ==> errors[Phone] == GetText(InvalidPhoneText, language))
  {
    EmailErrorPresence(form, language);
    PhoneErrorPresence(form, language);
  }

  /** The e-mail half of `FormatErrorsOverrideRequired`. */
  lemma EmailErrorPresence(form: FormData, language: string)
    ensures var errors := ValidationErrors(form, language);
      && (Email in errors <==> Blank(form, Email) || !IsValidEmail(form.email))
      && (form.email != "" && !IsValidEmail(form.email) ==> errors[Email] == GetText(InvalidEmailText, language))
  {
    var errors := ValidationErrors(form, language);
    EmailError(form, language);
    if form.email == "" {
      TrimEmptyIffBlank(form.email);
      assert Blank(form, Email) && Email in errors;
    } else if IsValidEmail(form.email) {
      assert !MalformedEmail(form);
      assert Email in errors <==> Blank(form, Email);
    } else {
      assert MalformedEmail(form);
      assert Lookup(errors, Email) == Some(GetText(InvalidEmailText, language));
    }
  }

  /** The phone half of `FormatErrorsOverrideRequired`. */
  lemma PhoneErrorPresence(form: FormData, language: string)
    ensures var errors := ValidationErrors(form, language);
      && (Phone in errors <==> Blank(form, Phone) || !IsValidThaiPhone(form.phone))
      && (form.phone != "" && !IsValidThaiPhone(form.phone) ==> errors[Phone] == GetText(InvalidPhoneText, language))
  {
    var errors := ValidationErrors(form, language);
    PhoneError(form, language);
    if form.phone == "" {
      TrimEmptyIffBlank(form.phone);
      assert Blank(form, Phone) && Phone in errors;
    } else if IsValidThaiPhone(form.phone) {
      assert !MalformedPhone(form);
      assert Phone in errors <==> Blank(form, Phone);
    } else {
      assert MalformedPhone(form);
      assert Lookup(errors, Phone) == Some(GetText(InvalidPhoneText, language));
    }
  }

  /** The card fields are checked only for `'credit-card'`: with a bank transfer they never have an error. */
  lemma CardErrorsOnlyForCreditCard(form: FormData, language: string, field: Field)
    requires IsCardField(field)
    ensures field in ValidationErrors(form, language) <==> form.paymentMethod == "credit-card" && Blank(form, field)
    ensures form.paymentMethod == "bank-transfer" ==> field !in ValidationErrors(form, language)
  {
    var errors := ValidationErrors(form, language);
    var required := GetText(RequiredText, language);
    ErrorsAt(form, language, field);
    assert field !in RequiredFields;
    assert FormatError(form, field, language, RequiredError(form, field, required)) == None;
    if form.paymentMethod == "credit-card" && Blank(form, field) {
      assert Lookup(errors, field) == Some(required);
    } else {
      assert Lookup(errors, field) == None;
    }
  }

  /** A valid address contains `@`, so it is not blank. */
  lemma ValidEmailNotBlank(email: string)
    requires IsValidEmail(email)
    ensures Trim(email) != ""
  {
    var at, dot :| EmailSplit(email, at, dot);
    TrimEmptyIffBlank(email);
    assert !IsWhitespace(email[at]);
  }

  /** A valid phone number contains a digit, so it is not blank. */
  lemma ValidPhoneNotBlank(phone: string)
    requires IsValidThaiPhone(phone)
    ensures Trim(phone) != ""
  {
    var d :| PhoneSplit(RemoveSeparators(phone), d);
    var s := RemoveSeparators(phone);
    assert s[|s| - 1] == d[|d| - 1];
    assert s[|s| - 1] in s;
    FilterMembers(phone, c => !IsSeparator(c));
    var k :| 0 <= k < |phone| && phone[k] == s[|s| - 1];
    TrimEmptyIffBlank(phone);
  }

  /**
   * `validateForm` returns true exactly when every required field is filled,
   * the e-mail and the phone have the right shape, and, for a credit card, the
   * card fields are filled.
   */
  lemma ValidIffComplete(form: FormData, language: string)
    ensures ValidationErrors(form, language) == map[] <==>
      && (forall f :: f in RequiredFields ==> !Blank(form, f))
      && IsValidEmail(form.email) && IsValidThaiPhone(form.phone)
      && (form.paymentMethod == "credit-card" ==> forall f :: IsCardField(f) ==> !Blank(form, f))
  {
    var errors := ValidationErrors(form, language);
    FormatErrorsOverrideRequired(form, language);
    if errors == map[] {
      forall f | f in RequiredFields ensures !Blank(form, f) {
        if f != Email && f != Phone {
          RequiredErrorIffBlank(form, language, f);
        }
      }
      if form.paymentMethod == "credit-card" {
        forall f | IsCardField(f) ensures !Blank(form, f) {
          CardErrorsOnlyForCreditCard(form, language, f);
        }
      }
    } else {
      var f :| f in errors;
      if IsCardField(f) {
        CardErrorsOnlyForCreditCard(form, language, f);
      } else if f in RequiredFields && f != Email && f != Phone {
        RequiredErrorIffBlank(form, language, f);
      } else if f != Email && f != Phone {
        ErrorsAt(form, language, f);
      }
      if IsValidEmail(form.email) {
        ValidEmailNotBlank(form.email);
      }
      if IsValidThaiPhone(form.phone) {
        ValidPhoneNotBlank(form.phone);
      }
    }
  }

  /** A non-empty e-mail of white space only gets the invalid-format message, not the required one. */
  lemma WhitespaceEmailIsMalformed(form: FormData, language: string)
    requires form.email != "" && forall k :: 0 <= k < |form.email| ==> IsWhitespace(form.email[k])
    ensures ValidationErrors(form, language)[Email] == GetText(InvalidEmailText, language)
  {
    forall at, dot ensures !EmailSplit(form.email, at, dot) {
      if 0 <= at < |form.email| {
        assert IsWhitespace(form.email[at]);
      }
    }
  }

  // ---------------------------------------------------------------------------
  // Shipping
  // ---------------------------------------------------------------------------

  /** `subtotal > 1000 ? 0 : 50`: free shipping strictly above 1000 baht. */
  function ShippingCost(subtotal: int): (r: int)
    ensures r == 0 <==> subtotal > 1000
    ensures r == 0 || r == 50
  {
    if subtotal > 1000 then 0 else 50
  }

  /** A larger subtotal never pays more shipping; exactly 1000 still pays 50. */
  lemma ShippingNonIncreasing(smaller: int, larger: int)
    requires smaller <= larger
    ensures ShippingCost(larger) <= ShippingCost(smaller)
    ensures ShippingCost(1000) == 50 && ShippingCost(1001) == 0
  {
  }

  // ---------------------------------------------------------------------------
  // The page
  // ---------------------------------------------------------------------------

  class CheckoutPage {
    var formData: FormData
    var errors: Errors
    var isSubmitting: bool
    /** The store `useCart` and `useLanguage` read and dispatch to. */
    const app: AppProvider

    constructor(app: AppProvider)
      ensures this.app == app && formData == InitialForm && errors == map[] && !isSubmitting
    {
      this.app := app;
      formData := InitialForm;
      errors := map[];
      isSubmitting := false;
    }

    /**
     * `handleInputChange`: sets the named field; clears that field's error to
     * `''` only when it holds a message.
     */
    method HandleInputChange(name: Field, value: string)
      modifies this
      ensures formData == old(formData).With(name, value)
      ensures errors == if name in old(errors) && old(errors)[name] != "" then old(errors)[name := ""] else old(errors)
      ensures isSubmitting == old(isSubmitting)
    {
      formData := formData.With(name, value);
      if name in errors && errors[name] != "" {
        errors := errors[name := ""];
      }
    }

    /** `validateForm`: stores the new error map and reports whether it is empty. */
    method ValidateForm() returns (valid: bool)
      modifies this
      ensures errors == ValidationErrors(formData, app.state.language)
      ensures valid <==> errors == map[]
      ensures formData == old(formData) && isSubmitting == old(isSubmitting)
    {
      var newErrors := CollectErrors(formData, app.state.language);
      errors := newErrors;
      valid := |newErrors| == 0;
      assert valid <==> newErrors == map[] by {
        if |newErrors| == 0 {
          assert forall f :: f !in newErrors;
        }
      }
    }

    /**
     * `handleSubmit`: an invalid form returns before anything else happens;
     * a valid one clears the cart (and its stored copy).
     */
    method HandleSubmit() returns (valid: bool)
      modifies this, app, app.storage
      ensures formData == old(formData)
      ensures errors == ValidationErrors(old(formData), old(app.state.language))
      ensures valid <==> errors == map[]
      ensures !valid ==> app.state == old(app.state) && app.storage.entries == old(app.storage.entries)
      ensures valid ==> app.state == old(app.state).(cart := EmptyCart)
      ensures valid ==> app.storage.entries == Delete(old(app.storage.entries), "cart")
      ensures old(app.Valid()) ==> app.Valid()
      ensures if valid then !isSubmitting else isSubmitting == old(isSubmitting)
    {
      valid := ValidateForm();
      if !valid {
        return;
      }
      isSubmitting := true;
      // `CLEAR_CART` removes a key and keeps the language, so neither write flag is used.
      app.Dispatch(ClearCart, "", true, true);
      isSubmitting := false;
    }
  }
}
