/**
 * The donation form of the front end: postal-code (CEP, `NNNNN-NNN`)
 * formatting, composing the full address, per-field validation, the
 * step-progress indicator and the image checks. Field values are strings as
 * typed; dates are integer days; a number typed in a field is given already parsed.
 */
module FoodForm {
  import opened Common
  import opened Text

  // ----- CEP -----

  /** `formatCEP`: keep the digits, at most 8, and put `-` after the fifth when there are more than five. */
  function FormatCep(v: string): (r: string)
    ensures |r| <= 9
    ensures Digits(r) == (var d := Digits(v); if |d| > 8 then d[..8] else d)
    ensures |r| == |Digits(r)| + (if |Digits(r)| > 5 then 1 else 0)
    ensures |r| > 5 ==> r[5] == '-'
  {
    var d := Digits(v);
    var d8 := if |d| > 8 then d[..8] else d;
    DigitsOfDigits(d8);
    if |d8| > 5 then
      DashedDigits(d8[..5], d8[5..]);
      assert d8 == d8[..5] + d8[5..];
      d8[..5] + ("-" + d8[5..])
    else d8
  }

  /** Putting a dash between two digit strings leaves the digits of both, joined. */
  lemma DashedDigits(a: string, b: string)
    requires forall i :: 0 <= i < |a| ==> IsDigit(a[i])
    requires forall i :: 0 <= i < |b| ==> IsDigit(b[i])
    ensures Digits(a + ("-" + b)) == a + b
  {
    var dash := ['-'] + b;
    assert dash[1..] == b;
    assert !IsDigit(dash[0]);
    assert Digits(dash) == Digits(b);
    DigitsOfDigits(a);
    DigitsOfDigits(b);
    DigitsAppend(a, dash);
    assert "-" + b == dash;
  }

  /** Formatting an already formatted CEP changes nothing, so re-typing into the field is stable. */
  lemma FormatCepIdempotent(v: string)
    ensures FormatCep(FormatCep(v)) == FormatCep(v)
  {
    var r := FormatCep(v);
    var d := Digits(v);
    var d8 := if |d| > 8 then d[..8] else d;
    assert Digits(r) == d8;
    assert |d8| <= 8;
  }

  /** The lookup runs only for a CEP with exactly 8 digits. */
  predicate CepSearchAllowed(cep: string) {
    |Digits(cep)| == 8
  }

  lemma FormattedCepSearchable(v: string)
    requires |Digits(v)| >= 8
    ensures CepSearchAllowed(FormatCep(v)) && |FormatCep(v)| == 9
  {
  }

  // ----- address -----

  /**
   * `generateFullAddress`: `street, number[, complement], city - state` from the
   * trimmed fields, only when street, number, city and state are all non-blank;
   * otherwise the address field keeps `current`.
   */
  function FullAddress(street: string, number: string, complement: string, city: string, state: string,
                       current: string): (r: string)
    ensures IsBlank(street) || IsBlank(number) || IsBlank(city) || IsBlank(state) ==> r == current
    ensures !IsBlank(street) && !IsBlank(number) && !IsBlank(city) && !IsBlank(state) ==>
      r == Compose(Trim(street), Trim(number), Trim(complement), Trim(city), Trim(state))
  {
    var s := Trim(street);
    var n := Trim(number);
    var c := Trim(city);
    var st := Trim(state);
    if s != [] && n != [] && c != [] && st != [] then Compose(s, n, Trim(complement), c, st)
    else current
  }

  /** The address text from trimmed parts: the complement appears only when non-empty. */
  function Compose(s: string, n: string, co: string, c: string, st: string): (r: string)
    ensures StartsWith(r, s + ", " + n)
    ensures EndsWith(r, ", " + c + " - " + st)
    ensures co == [] ==> r == s + ", " + n + ", " + c + " - " + st
    ensures co != [] ==> r == s + ", " + n + ", " + co + ", " + c + " - " + st
  {
    var front := s + ", " + n;
    var head := front + (if co != [] then ", " + co else "");
    var tail := ", " + c + " - " + st;
    assert (head + tail)[|head|..] == tail;
    assert (head + tail)[..|front|] == front;
    head + tail
  }

  predicate EndsWith(s: string, t: string) {
    |t| <= |s| && s[|s| - |t|..] == t
  }

  // ----- validation -----

  datatype Kind = Checkbox | FileInput | TextInput

  /**
   * One form control: whether it is on the page, its kind, whether it is
   * required, its text, the checkbox state, the number of chosen files, and
   * what `parseFloat` makes of the text (`None` for NaN).
   */
  datatype Field = Field(name: string, present: bool, kind: Kind, required: bool, value: string,
                         checked: bool, files: nat, number: Option<real>)

  /** A required control is empty: an unchecked box, no file, or blank text. */
  predicate Empty(f: Field) {
    match f.kind
    case Checkbox => !f.checked
    case FileInput => f.files == 0
    case TextInput => IsBlank(f.value)
  }

  /** A control passes: absent, or not an empty required one, and its own checks hold. */
  predicate FieldOk(f: Field)
    ensures !f.present ==> FieldOk(f)
    ensures FieldOk(f) && f.present ==> !(f.required && Empty(f)) && CepOk(f) && StateOk(f) && QuantityOk(f)
  {
    !f.present || (!(f.required && Empty(f)) && QuantityOk(f) && CepOk(f) && StateOk(f))
  }

  /** A quantity that parses must be positive. */
  predicate QuantityOk(f: Field) {
    !(f.name == "quantity" && f.value != "" && f.number.Some? && f.number.value <= 0.0)
  }

  /** A CEP must hold eight digits. */
  predicate CepOk(f: Field)
    ensures f.name == "cep" && f.value != "" ==> (CepOk(f) <==> |Digits(f.value)| == 8)
    ensures f.name != "cep" || f.value == "" ==> CepOk(f)
  {
    !(f.name == "cep" && f.value != "" && |Digits(f.value)| != 8)
  }

  /** A CEP that went through the formatter with eight digits typed passes validation. */
  lemma FormattedCepPasses(v: string, f: Field)
    requires |Digits(v)| >= 8 && f.name == "cep" && f.value == FormatCep(v)
    ensures CepOk(f)
  {
    FormattedCepSearchable(v);
  }

  /** A state must be two characters once trimmed. */
  predicate StateOk(f: Field) {
    !(f.name == "state" && f.value != "" && |Trim(f.value)| != 2)
  }

  /** Both dates given and expiry not after collection. */
  predicate DatesClash(expiry: Option<int>, collection: Option<int>)
    ensures expiry.None? || collection.None? ==> !DatesClash(expiry, collection)
    ensures expiry.Some? && collection.Some? ==> (DatesClash(expiry, collection) <==> !(collection.value < expiry.value))
  {
    expiry.Some? && collection.Some? && expiry.value <= collection.value
  }

  /** Every control passes, checked from the first one on. */
  predicate AllOk(fields: seq<Field>) {
    fields == [] || (FieldOk(fields[0]) && AllOk(fields[1..]))
  }

  /** `AllOk` is "every control passes". */
  lemma {:induction false} AllOkEveryField(fields: seq<Field>)
    ensures AllOk(fields) <==> forall i :: 0 <= i < |fields| ==> FieldOk(fields[i])
  {
    if fields != [] {
      AllOkEveryField(fields[1..]);
      assert forall i :: 1 <= i < |fields| ==> fields[i] == fields[1..][i - 1];
    }
  }

  /** What `validateForm` answers: every control passes and the dates agree. */
  predicate FormValid(fields: seq<Field>, expiry: Option<int>, collection: Option<int>)
    ensures FormValid(fields, expiry, collection) <==>
      (forall i :: 0 <= i < |fields| ==> FieldOk(fields[i])) && !DatesClash(expiry, collection)
  {
    AllOkEveryField(fields);
    AllOk(fields) && !DatesClash(expiry, collection)
  }

  /** The error mark of one control: its name when it fails, nothing when it passes. */
  function ErrorMark(f: Field): (m: seq<string>)
    ensures m == [] <==> FieldOk(f)
    ensures m != [] ==> m == [f.name]
  {
    if FieldOk(f) then [] else [f.name]
  }

  /** The names of the controls that get an error message, in field order. */
  function Flagged(fields: seq<Field>): (names: seq<string>)
    ensures |names| <= |fields|
    ensures names == [] <==> AllOk(fields)
  {
    if fields == [] then [] else ErrorMark(fields[0]) + Flagged(fields[1..])
  }

  /** The loop of `validateForm`: visits every control (it does not stop at the first error) and flags those that fail. */
  method CheckFields(fields: seq<Field>) returns (isValid: bool, flagged: seq<string>)
    ensures flagged == Flagged(fields)
    ensures isValid <==> AllOk(fields)
  {
    isValid := true;
    flagged := [];
    var i := 0;
    while i < |fields|
      invariant 0 <= i <= |fields|
      invariant isValid <==> flagged == []
      invariant flagged + Flagged(fields[i..]) == Flagged(fields)
    {
      assert fields[i..][1..] == fields[i + 1..];
      var mark := ErrorMark(fields[i]);
      ghost var rest := Flagged(fields[i + 1..]);
      assert Flagged(fields[i..]) == mark + rest;
      assert flagged + (mark + rest) == (flagged + mark) + rest;
      if mark != [] {
        flagged := flagged + mark;
        isValid := false;
      }
      i := i + 1;
    }
    assert fields[i..] == [];
  }

  /**
   * `validateForm`: the controls first, then the dates; a valid form moves the
   * progress indicator `steps` to step 3.
   */
  method ValidateForm(fields: seq<Field>, expiry: Option<int>, collection: Option<int>, steps: array<Mark>)
    returns (isValid: bool, flagged: seq<string>)
    modifies steps
    ensures isValid <==> FormValid(fields, expiry, collection)
    ensures flagged == Flagged(fields) + (if DatesClash(expiry, collection) then ["expiryDate"] else [])
    ensures isValid ==> forall i :: 0 <= i < steps.Length ==> steps[i] == MarkAfter(old(steps[i]), i, 3)
    ensures !isValid ==> steps[..] == old(steps[..])
  {
    isValid, flagged := CheckFields(fields);
    if DatesClash(expiry, collection) {
      flagged := flagged + ["expiryDate"];
      isValid := false;
    }
    if isValid {
      UpdateProgress(steps, 3);
    }
  }

  // ----- progress -----

  const EssentialFields: seq<string> := ["foodName", "foodType", "description", "quantity", "unit"]
  const LocationFields: seq<string> := ["cep", "street", "number", "city", "state", "conservation"]

  /** Every listed control exists and holds non-blank text. */
  predicate AllFilled(names: seq<string>, values: map<string, string>) {
    forall i :: 0 <= i < |names| ==> names[i] in values && !IsBlank(values[names[i]])
  }

  /** `checkStepCompletion`: the step the indicator moves to, if any. */
  function CheckStepCompletion(step: int, values: map<string, string>): (next: Option<int>)
    ensures next.Some? <==> (step == 1 && AllFilled(EssentialFields, values)) || (step == 2 && AllFilled(LocationFields, values))
    ensures next.Some? ==> next.value == step + 1 && next.value <= 3
  {
    var complete := if step == 1 then AllFilled(EssentialFields, values)
                    else if step == 2 then AllFilled(LocationFields, values)
                    else false;
    if complete && step < 3 then Some(step + 1) else None
  }

  /** The classes of one step of the indicator. */
  datatype Mark = Mark(active: bool, completed: bool)

  /** What `updateProgress` does to step `i` (0-based): it adds classes and removes both only for later steps. */
  function MarkAfter(m: Mark, i: int, activeStep: int): (r: Mark)
    ensures i + 1 > activeStep ==> r == Mark(false, false)
    ensures i + 1 == activeStep ==> r.active && r.completed == m.completed
    ensures i + 1 < activeStep ==> r.completed && r.active == m.active
  {
    if i + 1 == activeStep then m.(active := true)
    else if i + 1 < activeStep then m.(completed := true)
    else Mark(false, false)
  }

  method UpdateProgress(steps: array<Mark>, activeStep: int)
    modifies steps
    ensures forall i :: 0 <= i < steps.Length ==> steps[i] == MarkAfter(old(steps[i]), i, activeStep)
  {
    for i := 0 to steps.Length
      invariant forall j :: 0 <= j < i ==> steps[j] == MarkAfter(old(steps[j]), j, activeStep)
      invariant forall j :: i <= j < steps.Length ==> steps[j] == old(steps[j])
    {
      steps[i] := MarkAfter(steps[i], i, activeStep);
    }
  }

  /**
   * Moving forward never clears `active` from an earlier step: after showing
   * step 2 and then step 3, steps 2 and 3 are both marked active.
   */
  lemma ForwardKeepsEarlierActive()
    ensures var m1 := MarkAfter(MarkAfter(Mark(false, false), 1, 2), 1, 3);
      var m2 := MarkAfter(MarkAfter(Mark(false, false), 2, 2), 2, 3);
      m1.active && m2.active
  {
  }

  // ----- image -----

  const ValidImageTypes: seq<string> := ["image/jpeg", "image/jpg", "image/png", "image/gif"]

  /** `handleImageUpload`: the type must be one of four image types and the size at most 5 MB. */
  function ImageAccepted(fileType: string, size: int): (ok: bool)
    ensures ok ==> size <= 5 * 1024 * 1024
    ensures ok <==> fileType in {"image/jpeg", "image/jpg", "image/png", "image/gif"} && size <= 5242880
  {
    fileType in ValidImageTypes && size <= 5 * 1024 * 1024
  }
}
