/** The create-meet form: field validation with its error messages, the tag
    list editing, the `maxMembers` input default, the submit button's
    disabled condition and what a submission sends. Dates are day numbers;
    `today` is the current day. */
module CreateMeet {
  import opened Text
  import opened ListEdit

  /** The form state; `date` is `None` while the date input is empty. */
  datatype Form = Form(
    title: string,
    language: string,
    date: Option<int>,
    time: string,
    maxMembers: int,
    tags: seq<string>)

  /** One message per field, "" when the field is fine. */
  datatype Errors = Errors(title: string, language: string, date: string, time: string, tags: string)

  /** The meet the form asks the server to create. */
  datatype MeetRequest = MeetRequest(
    title: string,
    language: string,
    date: int,
    time: string,
    maxMembers: int,
    tags: seq<string>)

  datatype Submission = Rejected(errors: Errors) | CreateRequested(request: MeetRequest)

  const MinTitleLength: nat := 5
  const DefaultMaxMembers: int := 5
  const InitialForm: Form := Form("", "", None, "", DefaultMaxMembers, [])
  const NoErrors: Errors := Errors("", "", "", "", "")

  const TitleRequired: string := "Назва зустрічі є обов'язковою"
  const TitleTooShort: string := "Назва повинна містити мінімум 5 символів"
  const LanguageRequired: string := "Мова є обов'язковою"
  const DateRequired: string := "Дата є обов'язковою"
  const DateInPast: string := "Дата не може бути в минулому"
  const TimeRequired: string := "Час є обов'язковим"
  const TagsRequired: string := "Додайте хоча б один тег"

  /** The messages are non-empty and the two title messages, like the two
      date messages, differ. */
  lemma MessagesDistinct()
    ensures TitleRequired != "" && TitleTooShort != "" && LanguageRequired != "" &&
            DateRequired != "" && DateInPast != "" && TimeRequired != "" && TagsRequired != ""
    ensures TitleRequired != TitleTooShort && DateRequired != DateInPast
  {
    assert |TitleRequired| != |TitleTooShort| && |DateRequired| != |DateInPast|;
  }

  /** The form can be submitted: a title of at least five characters after
      trimming, a non-blank language, a date that is not before today, a
      time and at least one tag. */
  predicate FormValid(form: Form, today: int)
  {
    |Trim(form.title)| >= MinTitleLength &&
    !AllSpace(form.language) &&
    form.date.Some? && form.date.value >= today &&
    form.time != "" &&
    form.tags != []
  }

  /** The title message: required when blank, too short under five
      characters after trimming, none otherwise. */
  function TitleError(title: string): (m: string)
    ensures m == "" <==> |Trim(title)| >= MinTitleLength
    ensures AllSpace(title) <==> m == TitleRequired
    ensures !AllSpace(title) && |Trim(title)| < MinTitleLength <==> m == TitleTooShort
  {
    TrimEmptyIffAllSpace(title);
    MessagesDistinct();
    if Trim(title) == "" then TitleRequired
    else if |Trim(title)| < MinTitleLength then TitleTooShort
    else ""
  }

  /** The language message: required when blank. */
  function LanguageError(language: string): (m: string)
    ensures m == "" <==> !AllSpace(language)
    ensures AllSpace(language) <==> m == LanguageRequired
  {
    TrimEmptyIffAllSpace(language);
    MessagesDistinct();
    if Trim(language) == "" then LanguageRequired else ""
  }

  /** The date message: required when unset, in the past before today. */
  function DateError(date: Option<int>, today: int): (m: string)
    ensures m == "" <==> date.Some? && date.value >= today
    ensures date.None? <==> m == DateRequired
    ensures date.Some? && date.value < today <==> m == DateInPast
  {
    MessagesDistinct();
    if date.None? then DateRequired
    else if date.value < today then DateInPast
    else ""
  }

  /** The time message: required when empty. */
  function TimeError(time: string): (m: string)
    ensures m == "" <==> time != ""
    ensures time == "" <==> m == TimeRequired
  {
    MessagesDistinct();
    if time == "" then TimeRequired else ""
  }

  /** The tags message: required when there is no tag. */
  function TagsError(tags: seq<string>): (m: string)
    ensures m == "" <==> tags != []
    ensures tags == [] <==> m == TagsRequired
  {
    MessagesDistinct();
    if |tags| == 0 then TagsRequired else ""
  }

  /** The error record a form produces. */
  function FormErrors(form: Form, today: int): Errors
  {
    Errors(TitleError(form.title), LanguageError(form.language),
           DateError(form.date, today), TimeError(form.time), TagsError(form.tags))
  }

  /** A form produces no message exactly when it is valid. */
  lemma NoErrorsIffValid(form: Form, today: int)
    ensures FormErrors(form, today) == NoErrors <==> FormValid(form, today)
  {
  }

  /** `validateForm`: works out each field's message in turn, then reports
      whether every message is empty. */
  method ValidateForm(form: Form, today: int) returns (errors: Errors, ok: bool)
    ensures errors == FormErrors(form, today)
    ensures ok <==> errors == NoErrors
  {
    var titleMessage := "";
    var title := Trim(form.title);
    if title == "" {
      titleMessage := TitleRequired;
    } else if |title| < MinTitleLength {
      titleMessage := TitleTooShort;
    }
    assert titleMessage == TitleError(form.title);

    var languageMessage := "";
    if Trim(form.language) == "" {
      languageMessage := LanguageRequired;
    }
    assert languageMessage == LanguageError(form.language);

    var dateMessage := "";
    if form.date.None? {
      dateMessage := DateRequired;
    } else if form.date.value < today {
      dateMessage := DateInPast;
    }
    assert dateMessage == DateError(form.date, today);

    var timeMessage := "";
    if form.time == "" {
      timeMessage := TimeRequired;
    }
    assert timeMessage == TimeError(form.time);

    var tagsMessage := "";
    if |form.tags| == 0 {
      tagsMessage := TagsRequired;
    }
    assert tagsMessage == TagsError(form.tags);

    errors := Errors(titleMessage, languageMessage, dateMessage, timeMessage, tagsMessage);
    ok := errors == NoErrors;
  }

  /** `handleSubmit`: validation first; the meet is requested only from a
      valid form, with the title and tags as typed. */
  method HandleSubmit(form: Form, today: int) returns (s: Submission)
    ensures s.CreateRequested? <==> FormValid(form, today)
    ensures s.Rejected? ==> s.errors != NoErrors && s.errors == FormErrors(form, today)
    ensures s.CreateRequested? ==>
              s.request == MeetRequest(form.title, form.language, form.date.value,
                                       form.time, form.maxMembers, form.tags)
  {
    var errors, ok := ValidateForm(form, today);
    NoErrorsIffValid(form, today);
    if !ok {
      return Rejected(errors);
    }
    s := CreateRequested(MeetRequest(form.title, form.language, form.date.value,
                                     form.time, form.maxMembers, form.tags));
  }

  /** The submit button's `disabled` expression. */
  predicate SubmitDisabled(loading: bool, form: Form)
  {
    loading || form.title == "" || form.language == "" || form.date.None? ||
    form.time == "" || |form.tags| == 0
  }

  /** The button is disabled while a submission is in flight and for the
      form the page starts with. */
  lemma DisabledWhileLoadingOrPristine(loading: bool, form: Form)
    ensures loading ==> SubmitDisabled(loading, form)
    ensures form == InitialForm ==> SubmitDisabled(loading, form)
  {
  }

  /** A valid form always has its button enabled while nothing is loading;
      the button checks only emptiness, so an enabled button does not make
      the form valid. */
  lemma ValidFormEnablesSubmit(form: Form, today: int)
    requires FormValid(form, today)
    ensures !SubmitDisabled(false, form)
  {
  }

  /** A title of fewer than five characters leaves the button enabled but
      fails validation. */
  lemma EnabledButInvalid(today: int)
    ensures var form := Form("Hi", "English", Some(today), "10:00", DefaultMaxMembers, ["talk"]);
            !SubmitDisabled(false, form) && !FormValid(form, today)
  {
    var title := "Hi";
    assert |Trim(title)| <= |title| == 2;
  }

  /** `parseInt(value) || 5`: an input that is not a number, or is zero,
      gives the default. */
  function MaxMembersFromInput(input: string): (r: int)
    ensures r != 0
    ensures ParseInt(input).None? ==> r == DefaultMaxMembers
    ensures ParseInt(input) == Some(0) ==> r == DefaultMaxMembers
    ensures ParseInt(input).Some? && ParseInt(input).value != 0 ==> r == ParseInt(input).value
  {
    match ParseInt(input)
    case None => DefaultMaxMembers
    case Some(v) => if v == 0 then DefaultMaxMembers else v
  }

  /** What the number input yields for a typed count: the count itself when
      positive, the default for zero, and the default for an empty field. */
  lemma MaxMembersOfTypedCount(n: nat)
    ensures MaxMembersFromInput(Decimal(n)) == if n == 0 then DefaultMaxMembers else n
    ensures MaxMembersFromInput("") == DefaultMaxMembers
  {
    ParseDecimal(n);
    NoDigitsIsNaN("");
  }

  /** `addTag`: returns the new form and the new tag-input text. */
  function AddTag(form: Form, newTag: string): (r: (Form, string))
    ensures r.0 == form.(tags := r.0.tags)
    ensures r.0.tags == form.tags || (r.0.tags == form.tags + [Trim(newTag)] && r.1 == "")
    ensures r.0.tags == form.tags <==> AllSpace(newTag) || Trim(newTag) in form.tags
    ensures r.0.tags == form.tags ==> r.1 == newTag
    ensures NoDuplicates(form.tags) ==> NoDuplicates(r.0.tags)
  {
    var edit := AddTrimmed(form.tags, newTag);
    (form.(tags := edit.0), edit.1)
  }

  /** `removeTag`: every occurrence goes, the other tags keep their order and
      no other field changes. */
  function RemoveTag(form: Form, tag: string): (r: Form)
    ensures r == form.(tags := r.tags)
    ensures tag !in r.tags
    ensures forall t :: t != tag ==> (t in r.tags <==> t in form.tags)
    ensures forall t :: t != tag ==> multiset(r.tags)[t] == multiset(form.tags)[t]
    ensures IsSubsequence(r.tags, form.tags)
  {
    form.(tags := RemoveAll(form.tags, tag))
  }

  /** Removing a tag that was just added restores the form. */
  lemma AddThenRemoveTag(form: Form, newTag: string)
    requires !AllSpace(newTag) && Trim(newTag) !in form.tags
    ensures RemoveTag(AddTag(form, newTag).0, Trim(newTag)) == form
  {
    var t := Trim(newTag);
    assert AddTag(form, newTag).0.tags == form.tags + [t];
    ToggleTwice(form.tags, t);
    assert Toggle(form.tags, t) == form.tags + [t];
  }
}
