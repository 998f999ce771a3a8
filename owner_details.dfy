/**
 * The first onboarding page (app/owner/details/page.tsx): an eight-field
 * form, its progress figure, the validation in `handleNext`, and the lookup
 * of the slugified restaurant id that decides whether the owner may go on.
 */
module OwnerDetails {
  import opened Wrappers
  import opened JsStrings
  import opened Slug
  import opened Browser

  datatype OwnerForm = OwnerForm(
    restaurantName: string,
    userName: string,
    state: string,
    city: string,
    restaurantId: string,
    gmail: string,
    password: string,
    rePassword: string)

  datatype Field = RestaurantName | UserName | State | City | RestaurantId | Gmail | Password | RePassword

  /** `Object.values(form)`: the fields in declaration order. */
  function Values(f: OwnerForm): (r: seq<string>)
    ensures |r| == FieldCount
  {
    [f.restaurantName, f.userName, f.state, f.city, f.restaurantId, f.gmail, f.password, f.rePassword]
  }

  /** `Object.keys(form).length`. */
  const FieldCount := 8

  const EmptyForm := OwnerForm("", "", "", "", "", "", "", "")

  /** `setForm({ ...form, [name]: value })`. */
  function WithField(f: OwnerForm, field: Field, value: string): (r: OwnerForm)
  {
    match field
    case RestaurantName => f.(restaurantName := value)
    case UserName => f.(userName := value)
    case State => f.(state := value)
    case City => f.(city := value)
    case RestaurantId => f.(restaurantId := value)
    case Gmail => f.(gmail := value)
    case Password => f.(password := value)
    case RePassword => f.(rePassword := value)
  }

  predicate IsBlank(v: string)
  {
    Trim(v) == ""
  }

  /* ---------- progress ---------- */

  /** Which of the values are blank, position by position. */
  function BlankFlags(values: seq<string>): (r: seq<bool>)
    ensures |r| == |values| && forall i :: 0 <= i < |values| ==> r[i] == IsBlank(values[i])
  {
    seq(|values|, i requires 0 <= i < |values| => IsBlank(values[i]))
  }

  /** The number of `false` flags, i.e. of values that are filled in. */
  function CountFilled(blank: seq<bool>): (n: nat)
    ensures n <= |blank|
  {
    if blank == [] then 0 else (if blank[0] then 0 else 1) + CountFilled(blank[1..])
  }

  /** `Object.values(form).filter(v => v.trim() !== "").length`. */
  function FilledCount(values: seq<string>): (n: nat)
    ensures n <= |values|
  {
    CountFilled(BlankFlags(values))
  }

  lemma {:induction false} CountFilledAll(blank: seq<bool>)
    ensures CountFilled(blank) == |blank| <==> forall i :: 0 <= i < |blank| ==> !blank[i]
  {
    if blank != [] {
      CountFilledAll(blank[1..]);
      assert forall i :: 1 <= i < |blank| ==> blank[i] == blank[1..][i - 1];
    }
  }

  /** One flag counts one exactly when the value is filled in. */
  lemma CountFilledOne(b: bool)
    ensures CountFilled([b]) == if b then 0 else 1
  {
    assert [b][1..] == [];
  }

  /** The count distributes over concatenation; with CountFilledOne it fixes the count of every sequence. */
  lemma {:induction false} CountFilledAppend(a: seq<bool>, b: seq<bool>)
    ensures CountFilled(a + b) == CountFilled(a) + CountFilled(b)
  {
    if a == [] {
      assert a + b == b;
    } else {
      CountFilledAppend(a[1..], b);
      assert (a + b)[1..] == a[1..] + b;
    }
  }

  /** One value counts one exactly when it is not blank after trimming. */
  lemma FilledCountOne(v: string)
    ensures FilledCount([v]) == if IsBlank(v) then 0 else 1
  {
    assert BlankFlags([v]) == [IsBlank(v)];
    CountFilledOne(IsBlank(v));
  }

  /** The filled count of a concatenation is the sum of the two counts. */
  lemma FilledCountAppend(a: seq<string>, b: seq<string>)
    ensures FilledCount(a + b) == FilledCount(a) + FilledCount(b)
  {
    var fa, fb, fab := BlankFlags(a), BlankFlags(b), BlankFlags(a + b);
    assert fab == fa + fb by {
      forall i | 0 <= i < |fab|
        ensures fab[i] == (fa + fb)[i]
      {
        if i < |a| {
          assert (a + b)[i] == a[i];
        } else {
          assert (a + b)[i] == b[i - |a|];
        }
      }
    }
    CountFilledAppend(BlankFlags(a), BlankFlags(b));
  }

  lemma FilledCountAll(values: seq<string>)
    ensures FilledCount(values) == |values| <==> forall i :: 0 <= i < |values| ==> !IsBlank(values[i])
  {
    CountFilledAll(BlankFlags(values));
  }

  /** `Math.min((filledCount / totalFields) * 50, 50)` as a function of the filled count. */
  function ProgressOf(filled: nat): (p: real)
    ensures 0.0 <= p <= 50.0
    ensures p == 50.0 <==> filled >= FieldCount
    ensures filled <= FieldCount ==> p * FieldCount as real == filled as real * 50.0
  {
    var p := (filled as real / FieldCount as real) * 50.0;
    if p < 50.0 then p else 50.0
  }

  function FormProgress(f: OwnerForm): real
  {
    ProgressOf(FilledCount(Values(f)))
  }

  /** The progress lies in [0, 50] and reaches 50 exactly when all eight fields are filled in. */
  lemma ProgressRange(f: OwnerForm)
    ensures 0.0 <= FormProgress(f) <= 50.0
    ensures FormProgress(f) == 50.0 <==> forall i :: 0 <= i < FieldCount ==> !IsBlank(Values(f)[i])
  {
    FilledCountAll(Values(f));
  }

  /** Filling in more fields never lowers the progress. */
  lemma ProgressMonotone(m: nat, n: nat)
    requires m <= n
    ensures ProgressOf(m) <= ProgressOf(n)
  {
  }

  /* ---------- validation ---------- */

  datatype FormErrors = FormErrors(general: string, gmail: string, password: string, restaurantId: string)

  const NoErrors := FormErrors("", "", "", "")

  const FillAllFields := "Please fill all the fields"
  const GmailSuffix := "@gmail.com"
  const GmailMustEnd := "Gmail must end with @gmail.com"
  const PasswordMismatch := "Password does not match"
  const IdTaken := "Restaurant ID already exists"
  const CouldNotVerify := "Could not verify Restaurant ID. Please try again."

  predicate HasBlankField(f: OwnerForm)
  {
    exists i :: 0 <= i < FieldCount && IsBlank(Values(f)[i])
  }

  /** The errors the checks of `handleNext` produce, stated field by field. */
  function ValidationErrors(f: OwnerForm): (e: FormErrors)
    ensures e.general in {"", FillAllFields} && e.gmail in {"", GmailMustEnd} && e.password in {"", PasswordMismatch}
    ensures e.restaurantId == ""
    ensures e.gmail != "" ==> f.gmail != "" && !EndsWith(f.gmail, GmailSuffix)
    ensures e.general == "" ==> forall i :: 0 <= i < FieldCount ==> Trim(Values(f)[i]) != ""
  {
    FormErrors(
      general := if HasBlankField(f) then FillAllFields else "",
      gmail := if f.gmail != "" && !EndsWith(f.gmail, GmailSuffix) then GmailMustEnd else "",
      password := if f.password != f.rePassword then PasswordMismatch else "",
      restaurantId := "")
  }

  /** The three checks are independent: each error is set exactly when its own condition holds. */
  lemma ValidationPasses(f: OwnerForm)
    ensures ValidationErrors(f) == NoErrors <==>
      (forall i :: 0 <= i < FieldCount ==> !IsBlank(Values(f)[i])) &&
      (f.gmail == "" || EndsWith(f.gmail, GmailSuffix)) &&
      f.password == f.rePassword
  {
  }

  /** The scan of `handleNext`: stop at the first value that is blank after trimming. */
  method FindBlank(values: seq<string>) returns (found: bool)
    ensures found <==> exists i :: 0 <= i < |values| && IsBlank(values[i])
  {
    found := false;
    var i := 0;
    while i < |values|
      invariant 0 <= i <= |values|
      invariant forall j :: 0 <= j < i ==> !IsBlank(values[j])
    {
      if Trim(values[i]) == "" {
        found := true;
        break;
      }
      i := i + 1;
    }
  }

  /** The checks of `handleNext`: the scan for a blank field, then gmail and password. */
  method Validate(f: OwnerForm) returns (errors: FormErrors, hasError: bool)
    ensures errors == ValidationErrors(f)
    ensures hasError <==> errors != NoErrors
  {
    hasError := false;
    errors := NoErrors;
    var blank := FindBlank(Values(f));
    if blank {
      errors := errors.(general := FillAllFields);
      hasError := true;
    }
    if f.gmail != "" && !EndsWith(f.gmail, GmailSuffix) {
      errors := errors.(gmail := GmailMustEnd);
      hasError := true;
    }
    if f.password != f.rePassword {
      errors := errors.(password := PasswordMismatch);
      hasError := true;
    }
  }

  /* ---------- lookup ---------- */

  /** What `fetch` gave: a response with its status, or a thrown exception. */
  datatype LookupResponse = Response(status: int) | NetworkError

  datatype LookupVerdict = Taken | Unverified | Available

  /** 200 means the id is taken, 404 that it is free; anything else cannot be trusted. */
  function ClassifyLookup(r: LookupResponse): (v: LookupVerdict)
    ensures v == Available <==> r == Response(404)
    ensures v == Taken <==> r == Response(200)
  {
    match r
    case NetworkError => Unverified
    case Response(status) =>
      if status == 200 then Taken else if status != 404 then Unverified else Available
  }

  /** The request path for a slug; `encodeURIComponent` leaves the characters of a slug alone. */
  function HotelPath(slug: string): string
  {
    "/api/hotels/" + slug
  }

  const NextRoute := "/owner/details2"

  /** The page's state: the form, the error messages, the storage and where the router went. */
  class DetailsPage {
    var form: OwnerForm
    var errors: FormErrors
    var route: Option<string>
    const store: Storage

    constructor (store: Storage)
      ensures this.store == store
      ensures form == EmptyForm && errors == NoErrors && route == None
    {
      this.store := store;
      form := EmptyForm;
      errors := NoErrors;
      route := None;
    }

    function Progress(): real
      reads this
    {
      FormProgress(form)
    }

    /** Editing a field stores the value and clears every error. */
    method HandleChange(field: Field, value: string)
      modifies this
      ensures form == WithField(old(form), field, value)
      ensures errors == NoErrors && route == old(route)
    {
      form := WithField(form, field, value);
      errors := NoErrors;
    }

    /**
     * `handleNext`, with the clock reading used by `slugify` and the lookup's
     * outcome as inputs. Returns the path it requested, if it got that far.
     */
    method HandleNext(now: nat, response: LookupResponse) returns (request: Option<string>)
      modifies this, store
      ensures form == old(form)
      ensures ValidationErrors(form) != NoErrors ==>
        errors == ValidationErrors(form) && request == None &&
        store.items == old(store.items) && route == old(route)
      ensures ValidationErrors(form) == NoErrors ==>
        request == Some(HotelPath(Slugify(form.restaurantId, now)))
      ensures ValidationErrors(form) == NoErrors && ClassifyLookup(response) == Taken ==>
        errors == NoErrors.(restaurantId := IdTaken) && store.items == old(store.items) && route == old(route)
      ensures ValidationErrors(form) == NoErrors && ClassifyLookup(response) == Unverified ==>
        errors == NoErrors.(restaurantId := CouldNotVerify) && store.items == old(store.items) && route == old(route)
      ensures ValidationErrors(form) == NoErrors && ClassifyLookup(response) == Available ==>
        errors == NoErrors && route == Some(NextRoute) &&
        store.items == old(store.items)["userName" := form.userName]
                                       ["restaurantName" := form.restaurantName]
                                       ["restaurantId" := form.restaurantId]
    {
      var newErrors, hasError := Validate(form);
      if hasError {
        errors := newErrors;
        request := None;
        return;
      }
      errors := newErrors;
      var slug := Slugify(form.restaurantId, now);
      request := Some(HotelPath(slug));
      HandleLookup(response);
    }

    /**
     * The part of `handleNext` that reads the lookup's outcome: 200 and
     * 404 are told apart, any other status and a thrown exception both
     * report that the id could not be verified.
     */
    method HandleLookup(response: LookupResponse)
      modifies this, store
      ensures form == old(form)
      ensures ClassifyLookup(response) == Taken ==>
        errors == old(errors).(restaurantId := IdTaken) && store.items == old(store.items) && route == old(route)
      ensures ClassifyLookup(response) == Unverified ==>
        errors == old(errors).(restaurantId := CouldNotVerify) && store.items == old(store.items) && route == old(route)
      ensures ClassifyLookup(response) == Available ==>
        errors == old(errors) && route == Some(NextRoute) &&
        store.items == old(store.items)["userName" := form.userName]
                                       ["restaurantName" := form.restaurantName]
                                       ["restaurantId" := form.restaurantId]
    {
      match response {
        case NetworkError =>
          errors := errors.(restaurantId := CouldNotVerify);
        case Response(status) =>
          if status == 200 {
            errors := errors.(restaurantId := IdTaken);
            return;
          }
          if status != 404 {
            errors := errors.(restaurantId := CouldNotVerify);
            return;
          }
          store.SetItem("userName", form.userName);
          store.SetItem("restaurantName", form.restaurantName);
          store.SetItem("restaurantId", form.restaurantId);
          route := Some(NextRoute);
      }
    }
  }
}
