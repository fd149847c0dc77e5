/** The user records the client keeps and reads back: the user stored after
    login and the profile (`userInfo`) the questionnaire fills in. Every
    profile field may be missing in what the client holds. */
module Records {
  import opened Text

  datatype Gender = Male | Female

  datatype UserInfo = UserInfo(
    id: Option<string>,
    age: Option<int>,
    gender: Option<Gender>,
    interests: Option<seq<string>>,
    languages: Option<seq<string>>)

  datatype User = User(
    id: string,
    email: string,
    firstName: string,
    lastName: string,
    userInfo: Option<UserInfo>)
}
