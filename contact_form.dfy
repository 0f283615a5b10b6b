/** useContactForm: a contact form with per-field validation rules, a list
    of field errors kept up to date as fields are edited, a full validation
    before submitting, and a reset once the submission went through. */
module ContactForm {
  import opened Js
  import opened ApiTypes
  import opened EmailPattern

  /** The keys of the form, in the order `Object.keys` lists them. */
  datatype Field = Name | Email | Topic | Message | Agree

  const FieldOrder: seq<Field> := [Name, Email, Topic, Message, Agree]

  /** A value that can be written into a field: a string or a boolean. */
  datatype FieldValue = Text(text: string) | Flag(flag: bool)

  /** The form. Its declared type gives `agree` a boolean and the others
      strings (`topic` one of 'bug', 'question' and 'request'), but
      updateField accepts a string or a boolean for any key and stores it
      as given, so every key holds a FieldValue. */
  datatype ContactForm = ContactForm(name: FieldValue, email: FieldValue, topic: FieldValue,
                                     message: FieldValue, agree: FieldValue)

  datatype FormValidationError = FormValidationError(field: Field, message: string)

  /** `{ success, timestamp, payload? }`, without the clock reading. */
  datatype SubmitResult = SubmitResult(success: bool, payload: Option<ContactForm>)

  const InitialForm: ContactForm := ContactForm(Text(""), Text(""), Text("question"), Text(""), Flag(false))

  const NameInvalid: string := "氏名は2文字以上で入力してください"
  const EmailInvalid: string := "正しいメールアドレスを入力してください"
  const TopicInvalid: string := "お問い合わせ種別を選択してください"
  const MessageInvalid: string := "お問い合わせ内容は10文字以上で入力してください"
  const AgreeInvalid: string := "プライバシーポリシーに同意してください"
  const CheckInput: string := "入力内容を確認してください"
  const SubmitFailed: string := "送信に失敗しました"

  /** `form[field]`. */
  function ValueOf(form: ContactForm, field: Field): FieldValue {
    match field
    case Name => form.name
    case Email => form.email
    case Topic => form.topic
    case Message => form.message
    case Agree => form.agree
  }

  /** `form[field] = value`. */
  function WithValue(form: ContactForm, field: Field, value: FieldValue): (r: ContactForm)
    ensures ValueOf(r, field) == value
    ensures forall g :: g != field ==> ValueOf(r, g) == ValueOf(form, g)
  {
    match field
    case Name => form.(name := value)
    case Email => form.(email := value)
    case Topic => form.(topic := value)
    case Message => form.(message := value)
    case Agree => form.(agree := value)
  }

  //////////////////////////////////////////////////////////////////////
  // validateField
  //////////////////////////////////////////////////////////////////////

  /** JavaScript truthiness of a field value. */
  predicate Truthy(value: FieldValue) {
    match value
    case Text(s) => s != []
    case Flag(b) => b
  }

  /** `String(value)`. */
  function AsString(value: FieldValue): string {
    match value
    case Text(s) => s
    case Flag(b) => if b then "true" else "false"
  }

  /** The message for a field whose value breaks its rule, None when the
      value passes. */
  function ValidateField(field: Field, value: FieldValue): (r: Option<string>)
    ensures field == Name ==> (r.Some? <==> !Truthy(value) || |Trim(AsString(value))| < 2)
    ensures field == Email ==> (r.Some? <==> !Truthy(value) || !MatchesPattern(AsString(value)))
    ensures field == Topic || field == Agree ==> (r.Some? <==> !Truthy(value))
    ensures field == Message ==> (r.Some? <==> !Truthy(value) || |Trim(AsString(value))| < 10)
    ensures r.Some? ==> r.value != [] && r.value == FieldMessage(field)
  {
    match field
    case Name => if !Truthy(value) || |Trim(AsString(value))| < 2 then Some(NameInvalid) else None
    case Email =>
      IsEmailIsPattern(AsString(value));
      if !Truthy(value) || !IsEmail(AsString(value)) then Some(EmailInvalid) else None
    case Topic => if !Truthy(value) then Some(TopicInvalid) else None
    case Message => if !Truthy(value) || |Trim(AsString(value))| < 10 then Some(MessageInvalid) else None
    case Agree => if !Truthy(value) then Some(AgreeInvalid) else None
  }

  /** The one message each field's rule reports. */
  function FieldMessage(field: Field): string {
    match field
    case Name => NameInvalid
    case Email => EmailInvalid
    case Topic => TopicInvalid
    case Message => MessageInvalid
    case Agree => AgreeInvalid
  }

  /** A name or a message made of blanks only fails, whatever its length. */
  lemma BlankTextFails(field: Field, s: string)
    requires field == Name || field == Message
    requires AllSpace(s)
    ensures ValidateField(field, Text(s)).Some?
  {
    TrimEmptyIffBlank(s);
  }

  //////////////////////////////////////////////////////////////////////
  // The error list
  //////////////////////////////////////////////////////////////////////

  /** The test that an entry belongs to another field. */
  function NotForField(field: Field): FormValidationError -> bool {
    (e: FormValidationError) => e.field != field
  }

  /** The test that an entry belongs to `field`. */
  function ForField(field: Field): FormValidationError -> bool {
    (e: FormValidationError) => e.field == field
  }

  /** The message of the first entry for `field`, or none when it has no
      entry. */
  function FieldError(errors: seq<FormValidationError>, field: Field): (r: Option<string>)
    ensures r.Some? <==> exists e :: e in errors && e.field == field
    ensures r.Some? ==> exists i :: 0 <= i < |errors| && errors[i] == FormValidationError(field, r.value) &&
                                    forall j :: 0 <= j < i ==> errors[j].field != field
  {
    match Find(errors, ForField(field))
    case None => None
    case Some(e) => Some(e.message)
  }

  /** What setFieldError leaves: the entries for other fields, in order,
      then an entry for this field when the message is a non-empty string. */
  function WithFieldError(errors: seq<FormValidationError>, field: Field, message: Option<string>): (r: seq<FormValidationError>)
    ensures forall e :: e in r <==>
      (e in errors && e.field != field) ||
      (message.Some? && message.value != [] && e == FormValidationError(field, message.value))
  {
    FilterSpec(errors, NotForField(field));
    Filter(errors, NotForField(field)) +
    (if message.Some? && message.value != [] then [FormValidationError(field, message.value)] else [])
  }

  /** After setFieldError the field reports exactly the message set (no
      message for null or ''), and it has at most one entry, the last one. */
  lemma WithFieldErrorSetsField(errors: seq<FormValidationError>, field: Field, message: Option<string>)
    ensures var r := WithFieldError(errors, field, message);
            FieldError(r, field) == if message.Some? && message.value != [] then message else None
    ensures var r := WithFieldError(errors, field, message);
            |Filter(r, ForField(field))| <= 1 &&
            (message.Some? && message.value != [] ==> r[|r| - 1] == FormValidationError(field, message.value))
  {
    var kept := Filter(errors, NotForField(field));
    var tail: seq<FormValidationError> :=
      if message.Some? && message.value != [] then [FormValidationError(field, message.value)] else [];
    var r := kept + tail;
    FilterConcat(kept, tail, ForField(field));
    FilterOwnField(errors, field);
    if tail != [] {
      FilterSingleton(tail[0], ForField(field));
    }
    FirstForFieldIsFirstOfFilter(r, field);
  }

  /** Dropping a field's entries leaves none for it. */
  lemma {:induction false} FilterOwnField(es: seq<FormValidationError>, field: Field)
    ensures Filter(Filter(es, NotForField(field)), ForField(field)) == []
  {
    if es != [] {
      FilterOwnField(es[1..], field);
      var head: seq<FormValidationError> := if NotForField(field)(es[0]) then [es[0]] else [];
      FilterConcat(head, Filter(es[1..], NotForField(field)), ForField(field));
      if head != [] {
        assert head[1..] == [];
      }
    }
  }

  /** setFieldError leaves the entries of every other field as they were,
      in the same order. */
  lemma {:induction false} WithFieldErrorKeepsOthers(errors: seq<FormValidationError>, field: Field, message: Option<string>, other: Field)
    requires other != field
    ensures Filter(WithFieldError(errors, field, message), ForField(other)) == Filter(errors, ForField(other))
    ensures FieldError(WithFieldError(errors, field, message), other) == FieldError(errors, other)
  {
    var kept := Filter(errors, NotForField(field));
    var tail: seq<FormValidationError> :=
      if message.Some? && message.value != [] then [FormValidationError(field, message.value)] else [];
    FilterConcat(kept, tail, ForField(other));
    assert Filter(tail, ForField(other)) == [] by {
      if tail != [] {
        assert tail[1..] == [];
      }
    }
    assert kept + tail == WithFieldError(errors, field, message);
    FilterOtherField(errors, field, other);
    FirstForFieldIsFirstOfFilter(errors, other);
    FirstForFieldIsFirstOfFilter(WithFieldError(errors, field, message), other);
  }

  /** Dropping one field's entries does not touch another field's. */
  lemma {:induction false} FilterOtherField(es: seq<FormValidationError>, field: Field, other: Field)
    requires other != field
    ensures Filter(Filter(es, NotForField(field)), ForField(other)) == Filter(es, ForField(other))
  {
    if es != [] {
      FilterOtherField(es[1..], field, other);
      var head: seq<FormValidationError> := if NotForField(field)(es[0]) then [es[0]] else [];
      FilterConcat(head, Filter(es[1..], NotForField(field)), ForField(other));
      if head != [] {
        assert head[1..] == [];
      }
    }
  }

  /** The first entry for a field is the first entry of that field's
      sub-list. */
  lemma {:induction false} FirstForFieldIsFirstOfFilter(es: seq<FormValidationError>, field: Field)
    ensures FieldError(es, field) ==
      if Filter(es, ForField(field)) == [] then None else Some(Filter(es, ForField(field))[0].message)
  {
    if es != [] {
      FirstForFieldIsFirstOfFilter(es[1..], field);
      FilterSpec(es, ForField(field));
      if es[0].field != field {
        assert Find(es, ForField(field)) == Find(es[1..], ForField(field)) by {
          FindSkipsHead(es, ForField(field));
        }
      } else {
        assert Find(es, ForField(field)) == Some(es[0]);
      }
    }
  }

  lemma FindSkipsHead(es: seq<FormValidationError>, test: FormValidationError -> bool)
    requires es != [] && !test(es[0])
    ensures Find(es, test) == Find(es[1..], test)
  {
  }

  //////////////////////////////////////////////////////////////////////
  // validateForm, specified
  //////////////////////////////////////////////////////////////////////

  /** The entry one field contributes: none when it passes. */
  function EntryOf(form: ContactForm, field: Field): seq<FormValidationError> {
    match ValidateField(field, ValueOf(form, field))
    case None => []
    case Some(m) => [FormValidationError(field, m)]
  }

  /** The errors of `fields` in `form`, one per failing field, in order. */
  function ErrorsOf(form: ContactForm, fields: seq<Field>): seq<FormValidationError> {
    if fields == [] then [] else EntryOf(form, fields[0]) + ErrorsOf(form, fields[1..])
  }

  /** The errors of two runs of fields one after the other are the errors
      of the first run followed by those of the second. */
  lemma {:induction false} ErrorsOfConcat(form: ContactForm, a: seq<Field>, b: seq<Field>)
    ensures ErrorsOf(form, a + b) == ErrorsOf(form, a) + ErrorsOf(form, b)
  {
    if a == [] {
      assert a + b == b;
    } else {
      assert (a + b)[1..] == a[1..] + b;
      ErrorsOfConcat(form, a[1..], b);
    }
  }

  /** Validating one more field appends that field's entry. */
  lemma ErrorsOfSnoc(form: ContactForm, fields: seq<Field>, k: int)
    requires 0 <= k < |fields|
    ensures ErrorsOf(form, fields[..k + 1]) == ErrorsOf(form, fields[..k]) + EntryOf(form, fields[k])
  {
    assert fields[..k + 1] == fields[..k] + [fields[k]];
    ErrorsOfConcat(form, fields[..k], [fields[k]]);
  }

  /** The errors validateForm collects: an entry, with the rule's message,
      for exactly the fields that fail; none when every field passes. */
  function FormErrors(form: ContactForm): (r: seq<FormValidationError>)
    ensures forall e :: e in r <==> ValidateField(e.field, ValueOf(form, e.field)) == Some(e.message)
    ensures r == [] <==> forall f: Field :: ValidateField(f, ValueOf(form, f)).None?
  {
    ErrorsOfSpec(form, FieldOrder);
    forall f: Field ensures f in FieldOrder {
      assert FieldOrder[FieldIndex(f)] == f;
    }
    ErrorsOf(form, FieldOrder)
  }

  /** ErrorsOf holds an entry for exactly the failing fields, each with the
      rule's message, listed in the order of the fields. */
  lemma {:induction false} ErrorsOfSpec(form: ContactForm, fields: seq<Field>)
    ensures forall e :: e in ErrorsOf(form, fields) <==>
      e.field in fields && ValidateField(e.field, ValueOf(form, e.field)) == Some(e.message)
    ensures ErrorsOf(form, fields) == [] <==>
      forall f :: f in fields ==> ValidateField(f, ValueOf(form, f)).None?
  {
    if fields != [] {
      ErrorsOfSpec(form, fields[1..]);
      assert forall f :: f in fields <==> f == fields[0] || f in fields[1..];
    }
  }

  /** FormErrors, field by field: the first entry for a field carries the
      field's message exactly when the field fails. */
  lemma {:induction false} FormErrorsPerField(form: ContactForm, field: Field)
    ensures FieldError(FormErrors(form), field) == ValidateField(field, ValueOf(form, field))
  {
    ErrorsOfSpec(form, FieldOrder);
    var es := FormErrors(form);
    var v := ValidateField(field, ValueOf(form, field));
    assert field in FieldOrder;
    if v.Some? {
      assert FormValidationError(field, v.value) in es;
      var r := FieldError(es, field);
      assert r.Some?;
      var i :| 0 <= i < |es| && es[i] == FormValidationError(field, r.value);
      assert es[i] in es;
    } else {
      forall e | e in es ensures e.field != field {
      }
    }
  }

  /** FormErrors lists the failing fields in the order name, email, topic,
      message, agree, each at most once. */
  lemma FormErrorsOrdered(form: ContactForm)
    ensures var es := FormErrors(form);
            forall i, j :: 0 <= i < j < |es| ==> FieldIndex(es[i].field) < FieldIndex(es[j].field)
  {
    assert FieldIndex(FieldOrder[1]) == 1 && FieldIndex(FieldOrder[2]) == 2 && FieldIndex(FieldOrder[3]) == 3;
    assert forall i :: 0 <= i < |FieldOrder| ==> FieldIndex(FieldOrder[i]) == i;
    ErrorsOfOrdered(form, FieldOrder);
  }

  /** Fields listed in increasing order give entries in increasing order,
      all from the listed fields. */
  lemma {:induction false} ErrorsOfOrdered(form: ContactForm, fields: seq<Field>)
    requires forall i, j :: 0 <= i < j < |fields| ==> FieldIndex(fields[i]) < FieldIndex(fields[j])
    ensures var es := ErrorsOf(form, fields);
            (forall e :: e in es ==> e.field in fields) &&
            forall i, j :: 0 <= i < j < |es| ==> FieldIndex(es[i].field) < FieldIndex(es[j].field)
  {
    if fields != [] {
      ErrorsOfOrdered(form, fields[1..]);
      var rest := ErrorsOf(form, fields[1..]);
      var head := EntryOf(form, fields[0]);
      assert ErrorsOf(form, fields) == head + rest;
      EntryOfShape(form, fields[0]);
      forall e | e in rest
        ensures FieldIndex(fields[0]) < FieldIndex(e.field)
      {
        LaterFieldLaterIndex(fields, e.field);
      }
      AscendingCons(head, rest, fields[0]);
      assert forall e :: e in head + rest ==> e in head || e in rest;
    }
  }

  /** In an ascending field list, a field after the first has a larger
      index. */
  lemma LaterFieldLaterIndex(fields: seq<Field>, f: Field)
    requires |fields| >= 1 && f in fields[1..]
    requires forall i, j :: 0 <= i < j < |fields| ==> FieldIndex(fields[i]) < FieldIndex(fields[j])
    ensures FieldIndex(fields[0]) < FieldIndex(f)
  {
    var k :| 0 <= k < |fields[1..]| && fields[1..][k] == f;
    assert fields[k + 1] == f;
  }

  /** A field contributes at most one entry, and only for itself. */
  lemma EntryOfShape(form: ContactForm, field: Field)
    ensures |EntryOf(form, field)| <= 1
    ensures forall e :: e in EntryOf(form, field) ==> e.field == field
  {
  }

  /** An entry for a field placed before entries for later fields keeps the
      list in field order. */
  lemma AscendingCons(head: seq<FormValidationError>, rest: seq<FormValidationError>, field: Field)
    requires |head| <= 1 && forall e :: e in head ==> e.field == field
    requires forall e :: e in rest ==> FieldIndex(field) < FieldIndex(e.field)
    requires forall i, j :: 0 <= i < j < |rest| ==> FieldIndex(rest[i].field) < FieldIndex(rest[j].field)
    ensures var es := head + rest;
            forall i, j :: 0 <= i < j < |es| ==> FieldIndex(es[i].field) < FieldIndex(es[j].field)
  {
    var es := head + rest;
    forall i, j | 0 <= i < j < |es|
      ensures FieldIndex(es[i].field) < FieldIndex(es[j].field)
    {
      if i < |head| {
        assert es[i] in head;
        assert es[j] == rest[j - |head|];
        assert rest[j - |head|] in rest;
      } else {
        assert es[i] == rest[i - |head|] && es[j] == rest[j - |head|];
      }
    }
  }

  /** The position of a field in FieldOrder. */
  function FieldIndex(field: Field): (k: nat)
    ensures k < |FieldOrder| && FieldOrder[k] == field
  {
    match field
    case Name => 0
    case Email => 1
    case Topic => 2
    case Message => 3
    case Agree => 4
  }

  //////////////////////////////////////////////////////////////////////
  // The composable's state
  //////////////////////////////////////////////////////////////////////

  class ContactFormState {
    var form: ContactForm
    var errors: seq<FormValidationError>
    var isSubmitting: bool
    var submitResult: Option<SubmitResult>

    constructor ()
      ensures form == InitialForm && errors == [] && !isSubmitting && submitResult.None?
    {
      form := InitialForm;
      errors := [];
      isSubmitting := false;
      submitResult := None;
    }

    /** `setFieldError(field, message)`. */
    method SetFieldError(field: Field, message: Option<string>)
      modifies this
      ensures errors == WithFieldError(old(errors), field, message)
      ensures form == old(form) && isSubmitting == old(isSubmitting) && submitResult == old(submitResult)
    {
      errors := Filter(errors, NotForField(field));
      if message.Some? && message.value != [] {
        errors := errors + [FormValidationError(field, message.value)];
      }
    }

    /** `validateForm()`: rebuilds the error list from empty, one field at a
        time, and reports whether every field passed. */
    method ValidateForm() returns (isValid: bool)
      modifies this
      ensures errors == FormErrors(form)
      ensures isValid <==> errors == []
      ensures form == old(form) && isSubmitting == old(isSubmitting) && submitResult == old(submitResult)
    {
      var fields := FieldOrder;
      isValid := true;
      errors := [];
      var k := 0;
      while k < |fields|
        invariant 0 <= k <= |fields|
        invariant form == old(form) && isSubmitting == old(isSubmitting) && submitResult == old(submitResult)
        invariant errors == ErrorsOf(form, fields[..k])
        invariant isValid <==> errors == []
      {
        var field := fields[k];
        var result := ValidateField(field, ValueOf(form, field));
        ErrorsOfSnoc(form, fields, k);
        if result.Some? {
          isValid := false;
          errors := errors + [FormValidationError(field, result.value)];
        }
        k := k + 1;
      }
      assert fields[..k] == FieldOrder;
    }

    /** `updateField(field, value)`: writes the value, then replaces the
        field's entry in the error list by the outcome of its rule. */
    method UpdateField(field: Field, value: FieldValue)
      modifies this
      ensures form == WithValue(old(form), field, value)
      ensures errors == WithFieldError(old(errors), field, ValidateField(field, value))
      ensures isSubmitting == old(isSubmitting) && submitResult == old(submitResult)
    {
      form := WithValue(form, field, value);
      var fieldError := ValidateField(field, value);
      SetFieldError(field, fieldError);
    }

    /** `getFieldError(field)`. */
    function GetFieldError(field: Field): (r: Option<string>)
      reads this
      ensures r.Some? <==> exists e :: e in errors && e.field == field
      ensures r.Some? ==> exists i :: 0 <= i < |errors| && errors[i] == FormValidationError(field, r.value) &&
                                      forall j :: 0 <= j < i ==> errors[j].field != field
    {
      FieldError(errors, field)
    }

    /** `resetForm()`. */
    method ResetForm()
      modifies this
      ensures form == InitialForm && errors == [] && submitResult.None?
      ensures isSubmitting == old(isSubmitting)
    {
      form := InitialForm;
      errors := [];
      submitResult := None;
    }

    /** `submitForm()`, with the POST given as its outcome: an invalid form
        is refused before anything is sent; a sent form is reset, which also
        clears the result just stored; a failed send keeps the form. */
    method SubmitForm(reply: Reply<()>) returns (r: CallResult<SubmitResult>)
      modifies this
      ensures FormErrors(old(form)) != [] ==>
        && r == Failure(Error(CheckInput)) && form == old(form) && errors == FormErrors(old(form))
        && isSubmitting == old(isSubmitting) && submitResult == old(submitResult)
      ensures FormErrors(old(form)) == [] ==> !isSubmitting && submitResult.None?
      ensures FormErrors(old(form)) == [] && reply.Resolved? ==>
        r == Success(SubmitResult(true, Some(old(form)))) && form == InitialForm && errors == []
      ensures FormErrors(old(form)) == [] && reply.Rejected? ==>
        r == Failure(AsError(reply.thrown, SubmitFailed)) && form == old(form) && errors == []
    {
      var valid := ValidateForm();
      if !valid {
        return Failure(Error(CheckInput));
      }
      isSubmitting := true;
      submitResult := None;
      match reply {
        case Resolved(_) =>
          var result := SubmitResult(true, Some(form));
          submitResult := Some(result);
          ResetForm();
          r := Success(result);
        case Rejected(t) =>
          r := Failure(AsError(t, SubmitFailed));
      }
      isSubmitting := false;
    }
  }

  /** updateField, seen through getFieldError: the edited field reports its
      rule's outcome on the new value, every other field what it reported
      before. */
  lemma UpdateFieldThenGetFieldError(errors: seq<FormValidationError>, field: Field, value: FieldValue, other: Field)
    ensures FieldError(WithFieldError(errors, field, ValidateField(field, value)), field) == ValidateField(field, value)
    ensures other != field ==>
      FieldError(WithFieldError(errors, field, ValidateField(field, value)), other) == FieldError(errors, other)
  {
    WithFieldErrorSetsField(errors, field, ValidateField(field, value));
    if other != field {
      WithFieldErrorKeepsOthers(errors, field, ValidateField(field, value), other);
    }
  }
}
