# uare-connected client core in Dafny

This project models the client side of the uare-connected language-exchange web app:

- **The page-request gate** (`RouteGate`). It sorts a path into protected, login or other. It takes the access token from the cookie, or failing that from a `Bearer ` header, and decides whether the request passes or is redirected to `/login` or `/dashboard`.
- **The meet search page** (`MeetSearch`). This covers:
  - the card transform;
  - the sorted, duplicate-free lists of available languages and tags;
  - the three-stage filter (free text, then languages, then tags);
  - the filter-selection edits.
- **The create-meet form** (`CreateMeet`). This covers field validation with its messages, the submit button's `disabled` condition, the `maxMembers` input default and the tag list edits.
- **The profile questionnaire** (`Questionnaire`). This covers loading the stored profile, the ordered validation, the update request and the interest and language list edits.
- **The dashboard** (`Dashboard`). This covers the profile-completion percentage, the language and interest views, the statistics and the greeting.
- **The shared HTTP client** (`HttpClient`). This covers the bearer-header request interceptor, the 401/403 refresh-and-retry policy with its one-retry flag, and how an awaited call settles.
- **The session store** (`Session`). This is an `AuthService` class with three slots (access cookie, refresh cookie, stored user) and the `login`, `register`, `refresh`, `logout` and `isAuthenticated` operations.

Two supporting modules model the JavaScript primitives the pages use:

- `Text`:
  - `String.prototype.trim`, `startsWith` and `includes`;
  - a per-character lower-casing function;
  - code-point order for `sort`;
  - `parseInt`.
- `ListEdit`:
  - `filter`, and removal of every occurrence of a value;
  - the add-or-remove toggle;
  - "append the trimmed input unless it is blank or already present".

`Records` holds the shared user and profile records.

The model abstracts over several things:

- **Token verification:** a function parameter, `verify(token)`, which is `None` when the token is rejected.
- **Lower-casing:** a function parameter, `lower: char -> char`.
- **Dates:** integer day numbers, with `today` as a parameter.
- **Server replies:** inputs to the operations that await them.
- **The stored user:** an `Option<User>`.

## Model

| member | source | states |
|---|---|---|
| RouteGate.HeaderToken | src/middleware.ts:32-35 | A token is taken from the header exactly when it starts with `Bearer `, and the header is the prefix followed by that token |
| RouteGate.SelectToken | src/middleware.ts:29-37 | A non-empty cookie token wins; otherwise the header token is used |
| RouteGate.Decide | src/middleware.ts:11-75 | A path outside both classes always passes; only login paths are sent to `/dashboard`; only protected paths are sent to `/login` |
| RouteGate.RouteClassesDisjoint | src/middleware.ts:6-18 | No path is both protected and a login path |
| RouteGate.ProtectedDecision | src/middleware.ts:39-74 | A protected path passes exactly when a token is present and verified with a truthy `id`; otherwise it is redirected to `/login` |
| RouteGate.LoginDecision | src/middleware.ts:39-74 | A login path is redirected to `/dashboard` exactly when the token is accepted; otherwise it passes, and it is never sent to `/login` |
| RouteGate.NoTokenProtected | src/middleware.ts:40-47 | With neither cookie nor header, a protected path goes to `/login` |
| RouteGate.CookieTakesPrecedence | src/middleware.ts:37 | With a non-empty cookie, the header has no influence on the decision |
| RouteGate.PrefixClassification | src/middleware.ts:15-18 | Classification is by prefix: any extension of a listed route is in its class |
| MeetSearch.OrganizerName | src/app/meets/search/page.tsx:24-26 | The organizer name is never blank. It is `Unknown` when both names are blank, and otherwise, even when only one name is given, the trimmed `first last` |
| MeetSearch.TransformForCard | src/app/meets/search/page.tsx:12-32 | Id, title, language, member limit and URL are copied. The member count is the number of join requests, or 0 without a list. Tags default to empty. The organizer is `OrganizerName` of the creator. The avatar is kept exactly when it is present and non-empty |
| MeetSearch.LanguagesOfMembers | src/app/meets/search/page.tsx:45-50 | The collected languages are exactly the non-empty languages of the meets |
| MeetSearch.TagsOfMembers | src/app/meets/search/page.tsx:56-65 | The collected tags are exactly the non-empty tags of the meets that have a tag list |
| MeetSearch.SortedFromSet | src/app/meets/search/page.tsx:51 | `Array.from(set).sort()` is strictly ascending, holds no value twice, and has exactly the set's members |
| MeetSearch.AvailableLanguages | src/app/meets/search/page.tsx:43-52 | The result is strictly sorted, holds no value twice, and holds exactly the non-empty meet languages |
| MeetSearch.AvailableTags | src/app/meets/search/page.tsx:54-67 | The result is strictly sorted, holds no value twice, and holds exactly the non-empty tags found on the meets |
| MeetSearch.OwnValuesMatch | src/app/meets/search/page.tsx:80-107 | The empty query, the title, the creator's first name and each tag of a meet all match it as text. A one-language selection `[l]` matches a meet iff `l` is the meet's language and not empty. A one-tag selection `[t]` matches it iff its tag list holds `t`. A meet whose language is not empty is shown when the query is its title and the selection its language; with an empty language the `meet.language &&` test hides it from every one-language selection |
| MeetSearch.StagesSelect | src/app/meets/search/page.tsx:76-108 | Running the text, language and tag stages in turn keeps exactly the meets that pass every active criterion |
| MeetSearch.FilterMeets | src/app/meets/search/page.tsx:70-111 | The stage-by-stage filter yields the meets that pass every active criterion, in their original order |
| MeetSearch.FilteredMeets | src/app/meets/search/page.tsx:76-110 | The result is a subsequence of the meets; a meet is in it iff it is selected; each active criterion holds of every result; no meets gives no result |
| MeetSearch.ToggleLanguage | src/app/meets/search/page.tsx:113-119 | An unselected language is appended at the end; a selected one is removed with every other language kept in order; the query and tags are untouched |
| MeetSearch.ToggleTag | src/app/meets/search/page.tsx:121-125 | An unselected tag is appended at the end; a selected one is removed with every other tag kept in order; the query and languages are untouched |
| MeetSearch.ClearAllFilters | src/app/meets/search/page.tsx:127-131 | The query and both selections become empty |
| MeetSearch.HasActiveFilters | src/app/meets/search/page.tsx:133-136 | A filter is active iff a language or a tag is selected or the query is not blank |
| MeetSearch.InactiveFiltersShowAll | src/app/meets/search/page.tsx:127-136 | Without active filters every meet is shown, and clearing leaves no active filter |
| MeetSearch.ToggleLanguageTwice | src/app/meets/search/page.tsx:113-119 | Toggling an unselected language twice restores the filters |
| MeetSearch.ToggleTagTwice | src/app/meets/search/page.tsx:121-125 | Toggling an unselected tag twice restores the filters |
| CreateMeet.TitleError | src/app/meets/create/page.tsx:49-53 | The title message is empty iff the trimmed title has at least 5 characters. It is the "required" message iff the title is blank, and the "too short" message iff it is not blank but shorter than that |
| CreateMeet.LanguageError | src/app/meets/create/page.tsx:55-57 | The language message is empty iff the language is not blank, and is the "required" message otherwise |
| CreateMeet.DateError | src/app/meets/create/page.tsx:59-68 | The date message is empty iff a date is set and is not before today; it is "required" iff no date is set, and "in the past" iff the date is before today |
| CreateMeet.TimeError | src/app/meets/create/page.tsx:70-72 | The time message is empty iff a time is set, and is the "required" message otherwise |
| CreateMeet.TagsError | src/app/meets/create/page.tsx:74-76 | The tags message is empty iff there is a tag, and is the "required" message otherwise |
| CreateMeet.NoErrorsIffValid | src/app/meets/create/page.tsx:40-80 | A form produces no message at all exactly when it is valid: trimmed title of 5 or more characters, non-blank language, date set and not before today, time set, a tag |
| CreateMeet.ValidateForm | src/app/meets/create/page.tsx:40-80 | The error record holds each field's message as defined per field, and the result is true iff every message is empty |
| CreateMeet.HandleSubmit | src/app/meets/create/page.tsx:91-121 | A meet is requested iff the form is valid, with the fields as typed; an invalid form is rejected with exactly the messages `validateForm` computes for it, which are not all empty |
| CreateMeet.DisabledWhileLoadingOrPristine | src/app/meets/create/page.tsx:406-414 | The button is disabled while loading, and for the initial empty form |
| CreateMeet.ValidFormEnablesSubmit | src/app/meets/create/page.tsx:406-414 | A valid form never has its submit button disabled while nothing is loading |
| CreateMeet.EnabledButInvalid | src/app/meets/create/page.tsx:406-414 | The button checks only emptiness: a 2-character title leaves it enabled but fails validation |
| CreateMeet.MaxMembersFromInput | src/app/meets/create/page.tsx:315-319 | The result is never 0: a non-number or 0 gives 5, and any other parsed value is kept |
| CreateMeet.MaxMembersOfTypedCount | src/app/meets/create/page.tsx:318 | A typed count `n` gives `n` when positive and 5 when zero; an empty field gives 5 |
| CreateMeet.AddTag | src/app/meets/create/page.tsx:142-150 | The trimmed tag is appended iff it is not blank and not present, and the input is then cleared; nothing else changes; the tags stay duplicate-free |
| CreateMeet.RemoveTag | src/app/meets/create/page.tsx:152-157 | Every occurrence of the tag goes, every other tag stays as often as it was there and in its order, and no other field changes |
| CreateMeet.AddThenRemoveTag | src/app/meets/create/page.tsx:142-157 | Removing a tag just added restores the form |
| Questionnaire.FirstFailure | src/app/questionnaire/page.tsx:114-128 | The age check fails iff the age is outside 1..100; the interest check is reported iff the age passes and no interest is chosen; the language check iff both pass and no language is chosen; nothing iff all pass |
| Questionnaire.Message | src/app/questionnaire/page.tsx:114-128 | Every failed check has a non-empty message |
| Questionnaire.MessagesIdentifyChecks | src/app/questionnaire/page.tsx:114-128 | Different checks show different messages |
| Questionnaire.HandleSubmit | src/app/questionnaire/page.tsx:84-130 | An invalid form reports exactly its first failing check. Otherwise the update of `/info/update/<id>` with the answers is requested iff the profile has a non-empty id, and a missing id fails with `User info ID not found` |
| Questionnaire.AgeFromInput | src/app/questionnaire/page.tsx:227-232 | A non-numeric input gives 0; otherwise the parsed value |
| Questionnaire.NonNumericAgeFails | src/app/questionnaire/page.tsx:227-232 | A non-numeric age input always fails the age check first |
| Questionnaire.TypedAge | src/app/questionnaire/page.tsx:227-232 | A typed age `n` is read back as `n` and passes the age check iff 1 <= n <= 100 |
| Questionnaire.Initialize | src/app/questionnaire/page.tsx:73-82 | Each stored field is taken as is, and a missing one gets its default (0, MALE, empty lists); without a stored profile nothing changes |
| Questionnaire.EmptyProfileFailsAge | src/app/questionnaire/page.tsx:62-82 | Loading an empty profile gives the initial answers, which fail the age check |
| Questionnaire.ToggleInterest | src/app/questionnaire/page.tsx:133-140 | An unchosen interest is appended at the end; a chosen one is removed with the rest kept in order; no other answer changes |
| Questionnaire.ToggleLanguage | src/app/questionnaire/page.tsx:142-149 | An unchosen language is appended at the end; a chosen one is removed with the rest kept in order; no other answer changes |
| Questionnaire.AddCustomInterest | src/app/questionnaire/page.tsx:151-162 | The trimmed input is appended iff it is not blank and not chosen, and the input is then cleared; no other answer changes |
| Questionnaire.AddCustomLanguage | src/app/questionnaire/page.tsx:164-175 | The same rule for languages |
| Questionnaire.RemoveInterest | src/app/questionnaire/page.tsx:177-182 | The interest is gone; every other interest stays as often as it was there and in its order; no other answer changes |
| Questionnaire.RemoveLanguage | src/app/questionnaire/page.tsx:184-189 | The language is gone; every other language stays as often as it was there and in its order; no other answer changes |
| Questionnaire.ToggleTwiceRestores | src/app/questionnaire/page.tsx:133-149 | Toggling an unchosen interest or language twice restores the answers |
| Questionnaire.InterestEditsKeepNoDuplicates | src/app/questionnaire/page.tsx:133-182 | Every interest edit keeps the list duplicate-free |
| Questionnaire.LanguageEditsKeepNoDuplicates | src/app/questionnaire/page.tsx:142-189 | Every language edit keeps the list duplicate-free |
| Dashboard.CompletedFields | src/app/dashboard/Dashboard.tsx:23-29 | A field counts iff it is complete: age non-zero, gender present, interests and languages non-empty |
| Dashboard.RoundHalfUp | src/app/dashboard/Dashboard.tsx:30 | `Math.round(n / d)` is the nearest integer, with halves rounded up |
| Dashboard.ProfileProgress | src/app/dashboard/Dashboard.tsx:21-22 | Without a stored profile the progress is 0 |
| Dashboard.ProgressIsQuarters | src/app/dashboard/Dashboard.tsx:21-31 | The progress is exactly 25 per completed field, so at most 100 |
| Dashboard.ProgressExtremes | src/app/dashboard/Dashboard.tsx:21-31 | The progress is 100 iff all four fields are complete, and 0 iff none is |
| Dashboard.ProgressMonotone | src/app/dashboard/Dashboard.tsx:21-31 | Completing more fields never lowers the progress |
| Dashboard.LanguagesView | src/app/dashboard/Dashboard.tsx:34-38 | One row per stored language, in order, each at level `володію`; no rows without a list |
| Dashboard.InterestsView | src/app/dashboard/Dashboard.tsx:39 | The stored interests, or none |
| Dashboard.Stats | src/app/dashboard/Dashboard.tsx:42-51 | Four cards; the attended, organized and achievements counts are 0 |
| Dashboard.OffersCountLanguages | src/app/dashboard/Dashboard.tsx:45-48 | The offers statistic equals the number of language rows shown |
| Dashboard.GreetingName | src/app/dashboard/Dashboard.tsx:82 | The greeting uses the first name when it is non-empty, and `користувач` otherwise |
| HttpClient.WithBearer | src/lib/axios.ts:10-16 | With a truthy cookie, `Authorization` is set so that reading the `Bearer ` header gives back the cookie; otherwise the headers are unchanged; other headers are never touched |
| HttpClient.AttachBearer | src/lib/axios.ts:10-16 | The interceptor leaves exactly those headers, and changes neither URL nor retry flag |
| HttpClient.BearerHeaderRoundTrip | src/lib/axios.ts:11-14 | The token the client attaches is the token the page-request gate selects from the header |
| HttpClient.ShouldRetry | src/lib/axios.ts:23-28 | A retry needs a 401 or 403 on a request not yet retried, and never applies to the login or refresh URL |
| HttpClient.AuthUrlsNeverRetried | src/lib/axios.ts:26-27 | A URL containing `auth/login` or `auth/refresh` is never retried |
| HttpClient.LoginAndRefreshNeverRetried | src/lib/axios.ts:26-27 | The login and refresh requests are never retried |
| HttpClient.RetryIffFirstRefusalElsewhere | src/lib/axios.ts:23-28 | A request is retried iff it is refused with 401 or 403 for the first time and neither `auth/login` nor `auth/refresh` occurs anywhere in its URL |
| HttpClient.LogoutRetried | src/lib/axios.ts:23-28 | A first 401 on `/auth/logout` is retried: the substring test excludes only the login and refresh endpoints |
| HttpClient.ProfileUpdateRetried | src/lib/axios.ts:23-28 | A first 401 or 403 on `/info/update/<id>`, for an id without `/`, is retried |
| HttpClient.RefusedProfileUpdate | src/lib/axios.ts:23-37 | A profile update refused with 401 is retried once the refresh returns 200, and the session then holds the refreshed token |
| HttpClient.RetriedAtMostOnce | src/lib/axios.ts:25-29 | A request already marked as a retry is not retried again |
| HttpClient.OnResponseError | src/lib/axios.ts:20-46 | Corrected handler: a retry happens iff the retry condition holds and the refresh returns 200. The retry marks the request, refreshes the session and sets the header to the new token. Every other case rejects the original error with the header unchanged, where the source resolves to `undefined` (see Findings). The session changes only through the refresh |
| HttpClient.RetryHeaderSurvivesInterceptor | src/lib/axios.ts:10-37 | The request interceptor, run again on the retried request, keeps the header the error handler set |
| HttpClient.SettleAsWritten | src/lib/axios.ts:18-46 | For a request the handler does not retry (login, refresh, an earlier retry, or a failure other than 401/403): a 2xx reply resolves and any other reply resolves to `undefined` |
| HttpClient.Settle | src/lib/axios.ts:18-46 | For the same unretried requests under the corrected handler: a 2xx reply resolves and any other reply rejects with its error |
| HttpClient.LoginFailureSilentAsWritten | src/lib/axios.ts:20-46 | As written, no failed login reply is retried, and every one makes `login` return `undefined` with the session unchanged; among them the 400 a wrong password gets |
| HttpClient.LoginFailureReported | src/services/auth.service.ts:74-78 | With the rejecting handler, a failed login throws the server's message or the default, with the session unchanged |
| HttpClient.RefreshFailureClearsEitherWay | src/services/auth.service.ts:127-147 | A failed refresh request clears the session under both handlers; only the thrown error differs |
| Session.LoginMessage | src/services/auth.service.ts:75-77 | The thrown message is the server's non-empty message, or `Помилка входу в систему` |
| Session.AfterLogin | src/services/auth.service.ts:61-79 | A 200 stores the token and user and returns the response; a rejection throws the login message; anything else returns `undefined`; the slots change only on 200; the refresh slot is never written |
| Session.RegisterParts | src/services/auth.service.ts:90-94 | The form data holds the body and holds the avatar exactly when one is given |
| Session.AfterRegister | src/services/auth.service.ts:81-112 | A 200 stores the token and user; a non-200 or `undefined` throws `Помилка реєстрації`; a rejection propagates; the slots change only on 200 |
| Session.AfterRefresh | src/services/auth.service.ts:127-147 | A 200 replaces the token, and the user only when one is sent; every other result clears all three slots and throws |
| Session.SignInNeedsRefreshCookie | src/services/auth.service.ts:53-110 | Without a refresh cookie, neither login nor registration leaves the session authenticated |
| Session.LoginAuthenticates | src/services/auth.service.ts:53-72 | With a refresh cookie, a 200 login with a token and a user authenticates the session |
| Session.RefreshFailureDeauthenticates | src/services/auth.service.ts:140-146 | After a failed refresh the session is never authenticated |
| Session.AuthService.IsAuthenticated | src/services/auth.service.ts:53-59 | True iff both cookies are non-empty and a user is stored |
| Session.AuthService.Login | src/services/auth.service.ts:61-79 | The new slots and the outcome are those of `AfterLogin`; the refresh slot is unchanged |
| Session.AuthService.Register | src/services/auth.service.ts:81-112 | The new slots and the outcome are those of `AfterRegister` |
| Session.AuthService.Logout | src/services/auth.service.ts:114-125 | Whatever the server call did, all three slots are cleared and the session is not authenticated |
| Session.AuthService.Refresh | src/services/auth.service.ts:127-147 | The new slots and the outcome are those of `AfterRefresh` |
| Session.AuthService.constructor | src/services/auth.service.ts:150 | The session starts from the slots the browser holds |
| Text.TrimStart | src/app/meets/create/page.tsx:50-52 | The result is a suffix with no leading white space, and only white space was removed |
| Text.TrimEnd | src/app/meets/create/page.tsx:50-52 | The result is a prefix with no trailing white space, and only white space was removed |
| Text.TrimEmptyIffAllSpace | src/app/meets/create/page.tsx:50 | `s.trim()` is empty iff `s` is all white space |
| Text.TrimIdempotent | src/app/meets/create/page.tsx:143 | Trimming twice is trimming once |
| Text.IncludesIffOccurs | src/app/meets/search/page.tsx:81-89 | `includes` holds iff the needle occurs at some position |
| Text.LeastExists | src/app/meets/search/page.tsx:51 | A non-empty set of strings has a least element in sort order |
| Text.StrictlySortedDistinct | src/app/meets/search/page.tsx:51 | A strictly ascending list holds no value twice |
| Text.ParseDecimal | src/app/meets/create/page.tsx:318 | `parseInt` reads a decimal numeral back as its value |
| Text.NoDigitsIsNaN | src/app/questionnaire/page.tsx:230 | An input with no digit after its leading white space and optional sign parses to NaN; a lone sign, or a sign followed by a non-digit, included |
| ListEdit.Keep | src/app/meets/search/page.tsx:96-107 | `filter` keeps exactly the elements that pass |
| ListEdit.KeepIsSubsequence | src/app/meets/search/page.tsx:96-107 | A filtered list keeps the original order |
| ListEdit.KeepCounts | src/app/meets/search/page.tsx:96-107 | `filter` keeps every occurrence of a passing value and none of a failing one |
| ListEdit.RemoveAll | src/app/questionnaire/page.tsx:177-182 | Every occurrence of the value goes, and every other element stays as often as it occurred and in its order |
| ListEdit.Toggle | src/app/meets/search/page.tsx:113-125 | An absent value is appended at the end; a present one is removed with every occurrence, the rest kept in order; every other value keeps its membership |
| ListEdit.ToggleTwice | src/app/meets/search/page.tsx:113-125 | Toggling an absent value twice restores the list |
| ListEdit.AddTrimmed | src/app/meets/create/page.tsx:142-150 | The trimmed input is appended iff it is not blank and not present; the input is cleared exactly then; the list stays duplicate-free |

## Left out

- Lowering: Unicode `toLowerCase` is a per-character function parameter. Mappings that change length, such as `İ`, are not modelled.
- Sorting: `sort` is modelled as code-point order. UTF-16 code-unit order differs from it only for characters outside the Basic Multilingual Plane.
- CreateMeet.TitleError: counts the trimmed title's length in characters (Unicode scalar values), where JavaScript's `length` counts UTF-16 code units. A title made of characters outside the Basic Multilingual Plane, such as two flag emoji (four characters, eight code units), is judged too short here but passes on the page. `FormValid` and `FormErrors` inherit this. Titles inside the Basic Multilingual Plane are judged alike.
- Text.ParseInt: reads decimal and `0x` hexadecimal integers exactly. It does not model the floating-point rounding of very long digit runs (beyond 2^53).
- CreateMeet.FormValid: dates are day numbers. The UTC parsing of `new Date('YYYY-MM-DD')` against local midnight, invalid date strings and the `date`+`time` ISO string combination are not modelled. The request carries the date and time as separate fields.
- The `touched` flags, the `setTimeout` re-validation, the loading flag and the toasts of the create-meet page are not modelled. The loading flag enters only as the `loading` argument of `SubmitDisabled`.
- MeetSearch.TransformForCard: the date and time strings are not modelled, because they come from locale formatting. The fixed duration is not modelled either. A null `creator` is treated as present with empty names; the filter's `meet.creator.firstName` would throw on null.
- Session.AfterLogin and Session.AfterRegister: a successful reply without a `user` stores no user. The real `login` and `register` would both write the string `"undefined"`.
- The cookie and `localStorage` I/O is not modelled. The session keeps three optional slots. The refresh cookie is set by the server as an httpOnly cookie, which this client cannot read.
- HttpClient.OnResponseError: this is the corrected handler, which rejects what it does not retry; the source resolves such a request to `undefined`, which `SettleAsWritten` models (see Findings). The retried request's own outcome is not followed. The model stops at the decision to retry and at the header the retry carries. The lemma `RetriedAtMostOnce` shows the retried request cannot be retried again.
- The asynchrony of the interceptor's refresh and retry is not modelled. Each is one sequential step, with the server's reply as an input.
- JWT verification is the `verify` parameter. The middleware's `config.matcher` pattern is framework routing configuration.
- Rendering, toasts and router navigation are not modelled: JSX markup, `toast` calls, `router.push` and the query-cache update after the questionnaire succeeds.
- Dashboard: the `balance` display and the mock `matches` list are not modelled. Neither is computed from the stored user's modelled fields.
- The server side is not part of this model: API routes, token issuance and coin balances.

## Findings

| source | as written | input that shows it | evidently intended | confidence | as-written member | corrected member |
|---|---|---|---|---|---|---|
| src/lib/axios.ts:20-46 | The error handler returns only in the retry branch. Every other failed request falls off the end, so the awaited call resolves to `undefined`. `login` (src/services/auth.service.ts:61-79) then returns `undefined`, and its catch block, with the server message or `Помилка входу в систему`, is never reached | `POST /auth/login` with a wrong password, which the server refuses with 400 and the message `Login or password is incorrect` (src/app/api/(services)/auth.service.ts:63) | The handler rejects the original error, so a failed login throws its message | high (not executed) | HttpClient.LoginFailureSilentAsWritten | HttpClient.LoginFailureReported |
