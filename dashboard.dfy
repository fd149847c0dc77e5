/** The dashboard's derived values: the profile-completion percentage, the
    language and interest lists shown in the sidebar, the four statistics
    and the greeting. The user is the record stored after login, or `None`
    when nothing is stored. */
module Dashboard {
  import opened Text
  import opened ListEdit
  import opened Records

  /** The profile fields that count towards completion. */
  datatype Field = Age | GenderField | Interests | Languages

  /** A row of the languages card. */
  datatype LanguageRow = LanguageRow(name: string, level: string)

  /** A statistics card. */
  datatype Stat = Stat(caption: string, value: nat)

  const Fields: seq<Field> := [Age, GenderField, Interests, Languages]
  const SpokenLevel: string := "володію"
  const DefaultName: string := "користувач"
  const AttendedLabel: string := "Мітів відвідано"
  const OrganizedLabel: string := "Мітів організовано"
  const OffersLabel: string := "Пропозиції мітів"
  const AchievementsLabel: string := "Досягнень"

  /** `age` and `gender` count when truthy (an age of 0 does not); the two
      lists count when present and non-empty. */
  predicate FieldComplete(info: UserInfo, f: Field)
  {
    match f
    case Age => info.age.Some? && info.age.value != 0
    case GenderField => info.gender.Some?
    case Interests => info.interests.Some? && |info.interests.value| > 0
    case Languages => info.languages.Some? && |info.languages.value| > 0
  }

  /** Every field is one of the listed ones. */
  lemma FieldListed(f: Field)
    ensures f in Fields
  {
    match f
    case Age => assert Fields[0] == f;
    case GenderField => assert Fields[1] == f;
    case Interests => assert Fields[2] == f;
    case Languages => assert Fields[3] == f;
  }

  /** `fields.filter(...)`: the completed fields, in the listed order. */
  function CompletedFields(info: UserInfo): (r: seq<Field>)
    ensures |r| <= |Fields|
    ensures forall f :: f in r <==> FieldComplete(info, f)
  {
    forall f: Field ensures f in Fields { FieldListed(f); }
    Keep(Fields, f => FieldComplete(info, f))
  }

  /** `Math.round(n / d)` for non-negative operands: the nearest integer,
      halves rounded up. */
  function RoundHalfUp(n: nat, d: nat): (r: nat)
    requires d > 0
    ensures 2 * d * r <= 2 * n + d < 2 * d * r + 2 * d
  {
    (2 * n + d) / (2 * d)
  }

  /** `calculateProfileProgress`. */
  function ProfileProgress(user: Option<User>): (p: nat)
    ensures user.None? || user.value.userInfo.None? ==> p == 0
  {
    if user.None? || user.value.userInfo.None? then 0
    else RoundHalfUp(|CompletedFields(user.value.userInfo.value)| * 100, |Fields|)
  }

  /** Each completed field adds exactly a quarter: the percentage is one of
      0, 25, 50, 75 and 100, with no rounding error. */
  lemma ProgressIsQuarters(user: User)
    requires user.userInfo.Some?
    ensures ProfileProgress(Some(user)) == 25 * |CompletedFields(user.userInfo.value)|
    ensures ProfileProgress(Some(user)) <= 100
  {
    var c := |CompletedFields(user.userInfo.value)|;
    assert (2 * (c * 100) + 4) / 8 == 25 * c by {
      assert 2 * (c * 100) + 4 == 8 * (25 * c) + 4;
    }
  }

  /** The profile is shown as 100% complete exactly when all four fields are
      complete, and as 0% exactly when none is. */
  lemma ProgressExtremes(user: User)
    requires user.userInfo.Some?
    ensures ProfileProgress(Some(user)) == 100 <==> forall f :: FieldComplete(user.userInfo.value, f)
    ensures ProfileProgress(Some(user)) == 0 <==> forall f :: !FieldComplete(user.userInfo.value, f)
  {
    var info := user.userInfo.value;
    ProgressIsQuarters(user);
    KeepFull(Fields, f => FieldComplete(info, f));
    forall f: Field ensures f in Fields { FieldListed(f); }
    if CompletedFields(info) != [] {
      assert CompletedFields(info)[0] in CompletedFields(info);
    }
  }

  /** Completing more fields never lowers the percentage. */
  lemma ProgressMonotone(a: User, b: User)
    requires a.userInfo.Some? && b.userInfo.Some?
    requires forall f :: FieldComplete(a.userInfo.value, f) ==> FieldComplete(b.userInfo.value, f)
    ensures ProfileProgress(Some(a)) <= ProfileProgress(Some(b))
  {
    ProgressIsQuarters(a);
    ProgressIsQuarters(b);
    KeepMonotone(Fields, f => FieldComplete(a.userInfo.value, f), f => FieldComplete(b.userInfo.value, f));
  }

  /** The stored languages, each labelled with the one level the page knows;
      no languages when the profile or the list is missing. */
  function LanguagesView(user: Option<User>): (r: seq<LanguageRow>)
    ensures user.None? || user.value.userInfo.None? || user.value.userInfo.value.languages.None? ==> r == []
    ensures user.Some? && user.value.userInfo.Some? && user.value.userInfo.value.languages.Some? ==>
              var langs := user.value.userInfo.value.languages.value;
              |r| == |langs| && forall i :: 0 <= i < |r| ==> r[i] == LanguageRow(langs[i], SpokenLevel)
  {
    if user.None? || user.value.userInfo.None? || user.value.userInfo.value.languages.None? then []
    else
      var langs := user.value.userInfo.value.languages.value;
      seq(|langs|, i requires 0 <= i < |langs| => LanguageRow(langs[i], SpokenLevel))
  }

  /** The stored interests, or none. */
  function InterestsView(user: Option<User>): (r: seq<string>)
    ensures user.Some? && user.value.userInfo.Some? && user.value.userInfo.value.interests.Some? ==>
              r == user.value.userInfo.value.interests.value
    ensures user.None? || user.value.userInfo.None? || user.value.userInfo.value.interests.None? ==> r == []
  {
    if user.None? || user.value.userInfo.None? || user.value.userInfo.value.interests.None? then []
    else user.value.userInfo.value.interests.value
  }

  /** The four statistics cards; only the meet offers carry data. */
  function Stats(user: Option<User>): (r: seq<Stat>)
    ensures |r| == 4
    ensures r[0] == Stat(AttendedLabel, 0) && r[1] == Stat(OrganizedLabel, 0) && r[3] == Stat(AchievementsLabel, 0)
    ensures r[2].caption == OffersLabel
  {
    var offers :=
      if user.None? || user.value.userInfo.None? || user.value.userInfo.value.languages.None? then 0
      else |user.value.userInfo.value.languages.value|;
    [Stat(AttendedLabel, 0), Stat(OrganizedLabel, 0), Stat(OffersLabel, offers), Stat(AchievementsLabel, 0)]
  }

  /** The offers statistic counts the rows of the languages card. */
  lemma OffersCountLanguages(user: Option<User>)
    ensures Stats(user)[2].value == |LanguagesView(user)|
  {
  }

  /** The greeting uses the first name, or the generic word when it is empty
      or nothing is stored. */
  function GreetingName(user: Option<User>): (r: string)
    ensures r != ""
    ensures user.Some? && user.value.firstName != "" ==> r == user.value.firstName
    ensures user.None? || user.value.firstName == "" ==> r == DefaultName
  {
    if user.Some? && user.value.firstName != "" then user.value.firstName else DefaultName
  }
}
