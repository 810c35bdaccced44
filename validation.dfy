/** The request-body validators. Each field check runs in the source's order
    and records at most one message per field; a body is valid exactly when no
    field has a message. */
module Validation {
  import opened Wrappers
  import opened JsValues

  const WaitTimeRequired := "Wait time is required"
  const WaitTimeNotNumber := "Wait time must be a valid number"
  const WaitTimeNegative := "Wait time must be non-negative"
  const LocationRequired := "Location is required"
  const LocationIdNotNumber := "Location ID must be a valid number"
  const NameRequired := "Location name is required and must be a string"
  const NameEmpty := "Location name cannot be empty"
  const NameTooLong := "Location name must be 255 characters or less"
  const CategoryRequired := "Category is required"
  const CategoryIdNotNumber := "Category ID must be a valid number"
  const IsActiveNotBoolean := "isActive must be a boolean"
  /** The exception `data.name.trim()` raises on a present value that is not a string. */
  const TrimTypeError := "TypeError: data.name.trim is not a function"

  const MaxNameLength := 255

  /** A validator's verdict: the validated data, or the per-field messages. */
  datatype Verdict<+D, +E> = Valid(data: D) | Invalid(errors: E)

  /** `validateWaitTime(value)`: required, then numeric, then non-negative;
      on success the number itself. */
  function ValidateWaitTime(v: JsValue): (r: Result<int, string>)
    ensures r == Err(WaitTimeRequired) <==> v.Null? || v.Undefined? || v == Str("")
    ensures r == Err(WaitTimeNotNumber) <==>
      !(v.Null? || v.Undefined? || v == Str("")) && ToNumber(v).None?
    ensures r == Err(WaitTimeNegative) <==>
      !(v.Null? || v.Undefined? || v == Str("")) && ToNumber(v).Some? && ToNumber(v).value < 0
    ensures r.Ok? ==> r.value >= 0 && ToNumber(v) == Some(r.value)
  {
    if v.Null? || v.Undefined? || v == Str("") then Err(WaitTimeRequired)
    else
      match ToNumber(v)
      case None => Err(WaitTimeNotNumber)
      case Some(n) => if n < 0 then Err(WaitTimeNegative) else Ok(n)
  }

  /** A numeral validates to its number when it is not negative, and fails
      the sign check, not the number check, when it is; blanks around it are
      ignored, as `Number` trims. */
  lemma WaitTimeOfNumeral(i: int)
    ensures ValidateWaitTime(Str(IntToString(i))) == if i >= 0 then Ok(i) else Err(WaitTimeNegative)
    ensures ValidateWaitTime(Str(" " + IntToString(i) + " ")) == ValidateWaitTime(Str(IntToString(i)))
  {
    StringToNumberOfRendered(i);
    NumberIgnoresBlanks(IntToString(i));
    assert IntToString(i) != "" by {
      if i < 0 {
        assert IntToString(i)[0] == '-';
      }
    }
  }

  /** Text that starts with neither a digit, a sign nor a blank, and does not
      end in a blank, fails the number check. */
  lemma WaitTimeNotNumeric(s: string)
    requires s != [] && !IsDigit(s[0]) && s[0] != '-' && s[0] != '+'
    requires !IsWhitespace(s[0]) && !IsWhitespace(s[|s| - 1])
    ensures ValidateWaitTime(Str(s)) == Err(WaitTimeNotNumber)
  {
    assert Trim(s) == s by {
      TrimStartKeeps(s);
      TrimEndKeeps(s);
    }
  }

  /** The body of `POST /api/reports`. */
  datatype ReportBody = ReportBody(locationId: JsValue, waitTimeMinutes: JsValue)

  datatype ReportErrors = ReportErrors(locationId: Option<string>, waitTimeMinutes: Option<string>)

  datatype ReportData = ReportData(locationId: int, waitTimeMinutes: int)

  /** The `locationId` check: falsy (0 included) is missing; a non-number that
      `Number` cannot read is invalid. */
  function CheckLocationId(v: JsValue): (r: Option<string>)
    ensures r == Some(LocationRequired) <==> IsFalsy(v)
    ensures r == Some(LocationIdNotNumber) <==> !IsFalsy(v) && ToNumber(v).None?
    ensures r.None? <==> !IsFalsy(v) && ToNumber(v).Some?
  {
    if IsFalsy(v) then Some(LocationRequired)
    else if !v.Num? && ToNumber(v).None? then Some(LocationIdNotNumber)
    else None
  }

  /** `validateReportSubmission(data)`: both fields are checked and every
      message is kept; the validated data are `Number(locationId)` and the
      validated wait time. */
  function ValidateReportSubmission(body: ReportBody): (r: Verdict<ReportData, ReportErrors>)
    ensures r.Valid? <==> CheckLocationId(body.locationId).None? && ValidateWaitTime(body.waitTimeMinutes).Ok?
    ensures r.Valid? ==>
      ToNumber(body.locationId) == Some(r.data.locationId) && ValidateWaitTime(body.waitTimeMinutes) == Ok(r.data.waitTimeMinutes)
    ensures r.Valid? ==> r.data.waitTimeMinutes >= 0
    ensures r.Invalid? ==> r.errors.locationId.Some? || r.errors.waitTimeMinutes.Some?
    ensures r.Invalid? ==> r.errors.locationId == CheckLocationId(body.locationId)
    ensures r.Invalid? ==>
      (r.errors.waitTimeMinutes.Some? <==> ValidateWaitTime(body.waitTimeMinutes).Err?) &&
      (r.errors.waitTimeMinutes.Some? ==> r.errors.waitTimeMinutes.value == ValidateWaitTime(body.waitTimeMinutes).error)
  {
    var locationError := CheckLocationId(body.locationId);
    var waitTime := ValidateWaitTime(body.waitTimeMinutes);
    var waitTimeError := if waitTime.Err? then Some(waitTime.error) else None;
    if locationError.None? && waitTimeError.None? then
      Valid(ReportData(ToNumber(body.locationId).value, waitTime.value))
    else
      Invalid(ReportErrors(locationError, waitTimeError))
  }

  /** A location id of 0 is reported missing even with a valid wait time, and
      a bad wait time is still reported alongside it. */
  lemma ZeroLocationIsMissing(waitTime: JsValue)
    ensures var r := ValidateReportSubmission(ReportBody(Num(0), waitTime));
      r.Invalid? && r.errors.locationId == Some(LocationRequired) &&
      (ValidateWaitTime(waitTime).Err? ==> r.errors.waitTimeMinutes == Some(ValidateWaitTime(waitTime).error))
  {
  }

  /** The body of `POST /api/locations` and `PUT /api/locations/:id`; `Undefined`
      marks an absent field. */
  datatype LocationBody = LocationBody(name: JsValue, categoryId: JsValue, isActive: JsValue)

  datatype LocationErrors = LocationErrors(name: Option<string>, categoryId: Option<string>, isActive: Option<string>)

  /** `validatedData`: exactly the fields that were present. */
  datatype LocationFields = LocationFields(name: Option<string>, categoryId: Option<int>, isActive: Option<bool>)

  /** The `name` check: a truthy string, not blank once trimmed, and at most
      255 characters before trimming. */
  function CheckName(v: JsValue): (r: Option<string>)
    ensures r == Some(NameRequired) <==> IsFalsy(v) || !v.Str?
    ensures r == Some(NameEmpty) <==> v.Str? && v.s != "" && Trim(v.s) == ""
    ensures r == Some(NameTooLong) <==> v.Str? && Trim(v.s) != "" && |v.s| > MaxNameLength
    ensures r.None? <==> v.Str? && Trim(v.s) != "" && |v.s| <= MaxNameLength
  {
    if IsFalsy(v) || !v.Str? then Some(NameRequired)
    else if Trim(v.s) == "" then Some(NameEmpty)
    else if |v.s| > MaxNameLength then Some(NameTooLong)
    else None
  }

  /** The `categoryId` check: truthy, and a number or readable by `Number`. */
  function CheckCategoryId(v: JsValue): (r: Option<string>)
    ensures r == Some(CategoryRequired) <==> IsFalsy(v)
    ensures r == Some(CategoryIdNotNumber) <==> !IsFalsy(v) && ToNumber(v).None?
    ensures r.None? <==> !IsFalsy(v) && ToNumber(v).Some?
  {
    if IsFalsy(v) then Some(CategoryRequired)
    else if !v.Num? && ToNumber(v).None? then Some(CategoryIdNotNumber)
    else None
  }

  /** `validateLocationData(data, isUpdate)`. On create both `name` and
      `categoryId` are checked; on update only the ones present. `isActive`,
      when present, must be a boolean. Building `validatedData` calls
      `name.trim()` on any present name, which throws (`Err`) when it is not a
      string, whether or not the other checks passed. */
  function ValidateLocationData(body: LocationBody, isUpdate: bool): (r: Result<Verdict<LocationFields, LocationErrors>, string>)
    ensures r.Err? <==> !body.name.Undefined? && !body.name.Str?
    ensures r.Err? ==> r.error == TrimTypeError
    ensures r.Ok? && r.value.Valid? ==>
      var d := r.value.data;
      && (d.name.Some? <==> !body.name.Undefined?)
      && (d.name.Some? ==> d.name.value == Trim(body.name.s) && d.name.value != "")
      && (d.categoryId.Some? <==> !body.categoryId.Undefined?)
      && (d.categoryId.Some? ==> ToNumber(body.categoryId) == Some(d.categoryId.value))
      && (d.isActive.Some? <==> !body.isActive.Undefined?)
      && (d.isActive.Some? ==> body.isActive == Bool(d.isActive.value))
      && (!isUpdate ==> d.name.Some? && d.categoryId.Some?)
    ensures r.Ok? ==>
      (r.value.Valid? <==>
        && ((!isUpdate || !body.name.Undefined?) ==> CheckName(body.name).None?)
        && ((!isUpdate || !body.categoryId.Undefined?) ==> CheckCategoryId(body.categoryId).None?)
        && (body.isActive.Undefined? || body.isActive.Bool?))
    ensures r.Ok? && r.value.Invalid? ==>
      var e := r.value.errors;
      && (e.name.Some? || e.categoryId.Some? || e.isActive.Some?)
      && e.name == (if !isUpdate || !body.name.Undefined? then CheckName(body.name) else None)
      && e.categoryId == (if !isUpdate || !body.categoryId.Undefined? then CheckCategoryId(body.categoryId) else None)
      && (e.isActive.Some? <==> !body.isActive.Undefined? && !body.isActive.Bool?)
  {
    var nameError := if !isUpdate || !body.name.Undefined? then CheckName(body.name) else None;
    var categoryError := if !isUpdate || !body.categoryId.Undefined? then CheckCategoryId(body.categoryId) else None;
    var activeError := if !body.isActive.Undefined? && !body.isActive.Bool? then Some(IsActiveNotBoolean) else None;
    if !body.name.Undefined? && !body.name.Str? then Err(TrimTypeError)
    else if nameError.None? && categoryError.None? && activeError.None? then
      Ok(Valid(LocationFields(
        if body.name.Undefined? then None else Some(Trim(body.name.s)),
        if body.categoryId.Undefined? then None else Some(ToNumber(body.categoryId).value),
        if body.isActive.Undefined? then None else Some(body.isActive.b))))
    else
      Ok(Invalid(LocationErrors(nameError, categoryError, activeError)))
  }

  /** A present `null` name throws on create and on update alike, before any
      error can be reported. */
  lemma NullNameThrows(categoryId: JsValue, isActive: JsValue, isUpdate: bool)
    ensures ValidateLocationData(LocationBody(Null, categoryId, isActive), isUpdate) == Err(TrimTypeError)
  {
  }
}
