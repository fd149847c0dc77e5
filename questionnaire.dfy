/** The profile questionnaire: initialisation from the stored profile, the
    ordered validation of a submission, the update request it leads to, and
    the edits of the interest and language lists. */
module Questionnaire {
  import opened Text
  import opened ListEdit
  import opened Records

  datatype Answers = Answers(age: int, gender: Gender, interests: seq<string>, languages: seq<string>)

  /** The validation failures, in the order they are checked. */
  datatype Check = InvalidAge | NoInterest | NoLanguage

  datatype SubmitResult =
    | Invalid(check: Check)
    | MutationFailed(message: string)
    | UpdateRequested(path: string, data: Answers)

  const MinAge: int := 1
  const MaxAge: int := 100
  const InitialAnswers: Answers := Answers(0, Male, [], [])
  const MissingInfoId: string := "User info ID not found"
  const UpdatePath: string := "/info/update/"

  /** The error toast shown for a failed check. */
  function Message(c: Check): (m: string)
    ensures m != ""
  {
    match c
    case InvalidAge => "Будь ласка, введіть коректний вік (1-100)"
    case NoInterest => "Будь ласка, виберіть принаймні один інтерес"
    case NoLanguage => "Будь ласка, виберіть принаймні одну мову"
  }

  /** Each failed check has its own message. */
  lemma MessagesIdentifyChecks(c: Check, d: Check)
    ensures Message(c) == Message(d) ==> c == d
  {
  }

  /** The chain of early returns in `handleSubmit`: the first failing check,
      or `None` when the answers may be sent. */
  function FirstFailure(a: Answers): (r: Option<Check>)
    ensures r.None? <==> MinAge <= a.age <= MaxAge && a.interests != [] && a.languages != []
    ensures r == Some(InvalidAge) <==> !(MinAge <= a.age <= MaxAge)
    ensures r == Some(NoInterest) <==> MinAge <= a.age <= MaxAge && a.interests == []
    ensures r == Some(NoLanguage) <==> MinAge <= a.age <= MaxAge && a.interests != [] && a.languages == []
  {
    if a.age < MinAge || a.age > MaxAge then Some(InvalidAge)
    else if |a.interests| == 0 then Some(NoInterest)
    else if |a.languages| == 0 then Some(NoLanguage)
    else None
  }

  /** `handleSubmit` followed by the mutation: an invalid form reports its
      first failure; a valid one fails when the user has no profile id and
      otherwise requests the update of that profile with the answers. */
  function HandleSubmit(a: Answers, user: Option<User>): (r: SubmitResult)
    ensures r.UpdateRequested? <==>
              FirstFailure(a).None? && user.Some? && user.value.userInfo.Some? &&
              user.value.userInfo.value.id.Some? && user.value.userInfo.value.id.value != ""
    ensures r.UpdateRequested? ==>
              r.data == a && r.path == UpdatePath + user.value.userInfo.value.id.value
    ensures r.MutationFailed? ==> r.message == MissingInfoId && FirstFailure(a).None?
    ensures r.Invalid? <==> FirstFailure(a).Some?
    ensures r.Invalid? ==> Some(r.check) == FirstFailure(a)
  {
    match FirstFailure(a)
    case Some(c) => Invalid(c)
    case None =>
      if user.None? || user.value.userInfo.None? || user.value.userInfo.value.id.None?
         || user.value.userInfo.value.id.value == ""
      then MutationFailed(MissingInfoId)
      else UpdateRequested(UpdatePath + user.value.userInfo.value.id.value, a)
  }

  /** `parseInt(value) || 0` for the age input. */
  function AgeFromInput(input: string): (age: int)
    ensures ParseInt(input).None? ==> age == 0
    ensures ParseInt(input).Some? ==> age == ParseInt(input).value
  {
    match ParseInt(input)
    case None => 0
    case Some(v) => v
  }

  /** A non-numeric age input becomes 0, which always fails the age check
      first, whatever the other answers are. */
  lemma NonNumericAgeFails(a: Answers, input: string)
    requires ParseInt(input).None?
    ensures FirstFailure(a.(age := AgeFromInput(input))) == Some(InvalidAge)
  {
  }

  /** A typed age is accepted by the age check exactly when it is 1..100. */
  lemma TypedAge(a: Answers, n: nat)
    ensures AgeFromInput(Decimal(n)) == n
    ensures FirstFailure(a.(age := AgeFromInput(Decimal(n)))) != Some(InvalidAge) <==> MinAge <= n <= MaxAge
  {
    ParseDecimal(n);
  }

  /** The effect that loads the stored profile: every missing or falsy field
      takes its default (age 0, gender MALE, empty lists); without a stored
      profile the answers stay as they are. */
  function Initialize(current: Answers, user: Option<User>): (r: Answers)
    ensures user.None? || user.value.userInfo.None? ==> r == current
    ensures user.Some? && user.value.userInfo.Some? ==>
              var info := user.value.userInfo.value;
              && (info.age.None? ==> r.age == 0)
              && (info.gender.None? ==> r.gender == Male)
              && (info.interests.None? ==> r.interests == [])
              && (info.languages.None? ==> r.languages == [])
              && (info.age.Some? ==> r.age == info.age.value)
              && (info.gender.Some? ==> r.gender == info.gender.value)
              && (info.interests.Some? ==> r.interests == info.interests.value)
              && (info.languages.Some? ==> r.languages == info.languages.value)
  {
    if user.None? || user.value.userInfo.None? then current
    else
      var info := user.value.userInfo.value;
      Answers(
        if info.age.Some? then info.age.value else 0,
        if info.gender.Some? then info.gender.value else Male,
        if info.interests.Some? then info.interests.value else [],
        if info.languages.Some? then info.languages.value else [])
  }

  /** Loading an empty profile gives the initial answers, which fail the age
      check. */
  lemma EmptyProfileFailsAge(user: User)
    requires user.userInfo == Some(UserInfo(None, None, None, None, None))
    ensures Initialize(InitialAnswers, Some(user)) == InitialAnswers
    ensures FirstFailure(InitialAnswers) == Some(InvalidAge)
  {
  }

  // ---------------------------------------------------------------------------
  // List edits; each touches only its own list

  function ToggleInterest(a: Answers, interest: string): (r: Answers)
    ensures r == a.(interests := r.interests)
    ensures interest in r.interests <==> interest !in a.interests
    ensures interest !in a.interests ==> r.interests == a.interests + [interest]
    ensures interest in a.interests ==> r.interests == RemoveAll(a.interests, interest)
  {
    a.(interests := Toggle(a.interests, interest))
  }

  function ToggleLanguage(a: Answers, language: string): (r: Answers)
    ensures r == a.(languages := r.languages)
    ensures language in r.languages <==> language !in a.languages
    ensures language !in a.languages ==> r.languages == a.languages + [language]
    ensures language in a.languages ==> r.languages == RemoveAll(a.languages, language)
  {
    a.(languages := Toggle(a.languages, language))
  }

  /** `addCustomInterest`: the new answers and the new input text. */
  function AddCustomInterest(a: Answers, input: string): (r: (Answers, string))
    ensures r.0 == a.(interests := r.0.interests)
    ensures r.0.interests == a.interests <==> AllSpace(input) || Trim(input) in a.interests
    ensures r.0.interests != a.interests ==> r.0.interests == a.interests + [Trim(input)] && r.1 == ""
    ensures r.0.interests == a.interests ==> r.1 == input
  {
    var edit := AddTrimmed(a.interests, input);
    (a.(interests := edit.0), edit.1)
  }

  /** `addCustomLanguage`: the new answers and the new input text. */
  function AddCustomLanguage(a: Answers, input: string): (r: (Answers, string))
    ensures r.0 == a.(languages := r.0.languages)
    ensures r.0.languages == a.languages <==> AllSpace(input) || Trim(input) in a.languages
    ensures r.0.languages != a.languages ==> r.0.languages == a.languages + [Trim(input)] && r.1 == ""
    ensures r.0.languages == a.languages ==> r.1 == input
  {
    var edit := AddTrimmed(a.languages, input);
    (a.(languages := edit.0), edit.1)
  }

  function RemoveInterest(a: Answers, interest: string): (r: Answers)
    ensures r == a.(interests := r.interests)
    ensures interest !in r.interests
    ensures forall x :: x != interest ==> multiset(r.interests)[x] == multiset(a.interests)[x]
    ensures IsSubsequence(r.interests, a.interests)
  {
    a.(interests := RemoveAll(a.interests, interest))
  }

  function RemoveLanguage(a: Answers, language: string): (r: Answers)
    ensures r == a.(languages := r.languages)
    ensures language !in r.languages
    ensures forall x :: x != language ==> multiset(r.languages)[x] == multiset(a.languages)[x]
    ensures IsSubsequence(r.languages, a.languages)
  {
    a.(languages := RemoveAll(a.languages, language))
  }

  /** Toggling an interest that is not chosen, twice, restores the answers;
      likewise for a language. */
  lemma ToggleTwiceRestores(a: Answers, interest: string, language: string)
    requires interest !in a.interests && language !in a.languages
    ensures ToggleInterest(ToggleInterest(a, interest), interest) == a
    ensures ToggleLanguage(ToggleLanguage(a, language), language) == a
  {
    ToggleTwice(a.interests, interest);
    ToggleTwice(a.languages, language);
  }

  /** The interest edits keep the interest list free of duplicates. */
  lemma InterestEditsKeepNoDuplicates(a: Answers, value: string)
    requires NoDuplicates(a.interests)
    ensures NoDuplicates(ToggleInterest(a, value).interests)
    ensures NoDuplicates(AddCustomInterest(a, value).0.interests)
    ensures NoDuplicates(RemoveInterest(a, value).interests)
  {
    ToggleNoDuplicates(a.interests, value);
    RemoveAllNoDuplicates(a.interests, value);
  }

  /** The language edits keep the language list free of duplicates. */
  lemma LanguageEditsKeepNoDuplicates(a: Answers, value: string)
    requires NoDuplicates(a.languages)
    ensures NoDuplicates(ToggleLanguage(a, value).languages)
    ensures NoDuplicates(AddCustomLanguage(a, value).0.languages)
    ensures NoDuplicates(RemoveLanguage(a, value).languages)
  {
    ToggleNoDuplicates(a.languages, value);
    RemoveAllNoDuplicates(a.languages, value);
  }
}
