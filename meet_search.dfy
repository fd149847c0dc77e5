/** The meet search page: the card transform, the sorted sets of languages
    and tags offered as filters, the staged filter (free text, then
    languages, then tags) and the edits of the filter state. */
module MeetSearch {
  import opened Text
  import opened ListEdit

  datatype Creator = Creator(firstName: string, lastName: string, avatarUrl: Option<string>)

  /** A meet as the list endpoint returns it; `tags` and `joinRequests` may be
      missing (not an array). */
  datatype Meet = Meet(
    id: string,
    title: string,
    language: string,
    tags: Option<seq<string>>,
    creator: Creator,
    maxMembers: int,
    joinRequests: Option<seq<string>>,
    url: string)

  /** What a meet card shows (date and time formatting left out). */
  datatype Card = Card(
    id: string,
    title: string,
    language: string,
    tags: seq<string>,
    organizerName: string,
    avatarUrl: Option<string>,
    maxMembers: int,
    currentMembers: nat,
    zoomUrl: string)

  /** The filter state of the page. */
  datatype Filters = Filters(query: string, languages: seq<string>, tags: seq<string>)

  const UnknownOrganizer: string := "Unknown"

  // ---------------------------------------------------------------------------
  // Card transform

  /** The joined name is blank exactly when both parts are. */
  lemma JoinedBlank(first: string, last: string)
    ensures AllSpace(first + " " + last) <==> AllSpace(first) && AllSpace(last)
  {
    var full := first + " " + last;
    forall k | 0 <= k < |first| ensures full[k] == first[k] { }
    forall k | 0 <= k < |last| ensures full[|first| + 1 + k] == last[k] { }
    assert full[|first|] == ' ';
  }

  /** `\`${first} ${last}\`.trim() || 'Unknown'` */
  function OrganizerName(c: Creator): (name: string)
    ensures !AllSpace(name)
    ensures AllSpace(c.firstName) && AllSpace(c.lastName) ==> name == UnknownOrganizer
    ensures !(AllSpace(c.firstName) && AllSpace(c.lastName)) ==> name == Trim(c.firstName + " " + c.lastName)
  {
    var full := c.firstName + " " + c.lastName;
    var t := Trim(full);
    TrimEmptyIffAllSpace(full);
    JoinedBlank(c.firstName, c.lastName);
    if t == "" then
      assert UnknownOrganizer[0] == 'U';
      UnknownOrganizer
    else
      TrimIdempotent(full);
      TrimEmptyIffAllSpace(t);
      t
  }

  /** `transformMeetForCard` */
  function TransformForCard(m: Meet): (card: Card)
    ensures card.currentMembers == if m.joinRequests.Some? then |m.joinRequests.value| else 0
    ensures card.tags == if m.tags.Some? then m.tags.value else []
    ensures card.id == m.id && card.title == m.title && card.language == m.language
    ensures card.maxMembers == m.maxMembers && card.zoomUrl == m.url
    ensures card.organizerName == OrganizerName(m.creator) && !AllSpace(card.organizerName)
    ensures card.avatarUrl.Some? <==> m.creator.avatarUrl.Some? && m.creator.avatarUrl.value != ""
    ensures card.avatarUrl.Some? ==> card.avatarUrl == m.creator.avatarUrl
  {
    Card(
      m.id,
      m.title,
      m.language,
      if m.tags.Some? then m.tags.value else [],
      OrganizerName(m.creator),
      if m.creator.avatarUrl.Some? && m.creator.avatarUrl.value != "" then m.creator.avatarUrl else None,
      m.maxMembers,
      if m.joinRequests.Some? then |m.joinRequests.value| else 0,
      m.url)
  }

  // ---------------------------------------------------------------------------
  // Available languages and tags

  /** The non-empty languages of `ms`, accumulated meet by meet. */
  function LanguagesOf(ms: seq<Meet>): set<string>
  {
    if ms == [] then {}
    else
      var last := ms[|ms| - 1];
      LanguagesOf(ms[..|ms| - 1]) + (if last.language != "" then {last.language} else {})
  }

  lemma {:induction false} LanguagesOfMembers(ms: seq<Meet>)
    ensures forall x :: x in LanguagesOf(ms) <==> x != "" && exists m :: m in ms && m.language == x
  {
    if ms != [] {
      var init := ms[..|ms| - 1];
      LanguagesOfMembers(init);
      assert ms == init + [ms[|ms| - 1]];
      forall x | x != "" && (exists m :: m in ms && m.language == x)
        ensures x in LanguagesOf(ms)
      {
        var m :| m in ms && m.language == x;
        if m != ms[|ms| - 1] { assert m in init; }
      }
    }
  }

  /** The non-empty strings of a tag list, accumulated tag by tag. */
  function NonEmptyOf(ts: seq<string>): set<string>
  {
    if ts == [] then {}
    else NonEmptyOf(ts[..|ts| - 1]) + (if ts[|ts| - 1] != "" then {ts[|ts| - 1]} else {})
  }

  lemma {:induction false} NonEmptyOfMembers(ts: seq<string>)
    ensures forall x :: x in NonEmptyOf(ts) <==> x != "" && x in ts
  {
    if ts != [] {
      NonEmptyOfMembers(ts[..|ts| - 1]);
      assert ts == ts[..|ts| - 1] + [ts[|ts| - 1]];
    }
  }

  /** The non-empty tags of `ms`, accumulated meet by meet. */
  function TagsOf(ms: seq<Meet>): set<string>
  {
    if ms == [] then {}
    else
      var last := ms[|ms| - 1];
      TagsOf(ms[..|ms| - 1]) + (if last.tags.Some? then NonEmptyOf(last.tags.value) else {})
  }

  predicate HasTag(m: Meet, x: string)
  {
    m.tags.Some? && x in m.tags.value
  }

  lemma {:induction false} TagsOfMembers(ms: seq<Meet>)
    ensures forall x :: x in TagsOf(ms) <==> x != "" && exists m :: m in ms && HasTag(m, x)
  {
    if ms != [] {
      var init := ms[..|ms| - 1];
      var last := ms[|ms| - 1];
      TagsOfMembers(init);
      if last.tags.Some? { NonEmptyOfMembers(last.tags.value); }
      assert ms == init + [last];
      forall x | x != "" && (exists m :: m in ms && HasTag(m, x))
        ensures x in TagsOf(ms)
      {
        var m :| m in ms && HasTag(m, x);
        if m != last { assert m in init; }
      }
      forall x | x in TagsOf(ms)
        ensures x != "" && exists m :: m in ms && HasTag(m, x)
      {
        if x in TagsOf(init) {
          var m :| m in init && HasTag(m, x);
          assert m in ms;
        } else {
          assert HasTag(last, x);
        }
      }
    }
  }

  /** `Array.from(set).sort()`: the elements of a set in increasing order,
      chosen least first. */
  method SortedFromSet(s: set<string>) returns (r: seq<string>)
    ensures StrictlySorted(r) && NoDuplicates(r)
    ensures forall x :: x in r <==> x in s
  {
    var rest := s;
    r := [];
    while rest != {}
      invariant rest <= s
      invariant forall x :: x in s <==> x in r || x in rest
      invariant StrictlySorted(r)
      invariant forall i, y :: 0 <= i < |r| && y in rest ==> Less(r[i], y)
      decreases |rest|
    {
      LeastExists(rest);
      var m :| IsLeast(m, rest);
      forall i, y | 0 <= i < |r| && y in rest - {m} ensures Less(r[i], y) {
        LessTransitive(r[i], m, y);
      }
      r := r + [m];
      rest := rest - {m};
    }
    StrictlySortedDistinct(r);
  }

  /** `availableLanguages`: the distinct non-empty languages, sorted. */
  method AvailableLanguages(meets: seq<Meet>) returns (r: seq<string>)
    ensures StrictlySorted(r) && NoDuplicates(r)
    ensures forall x :: x in r <==> x != "" && exists m :: m in meets && m.language == x
  {
    if |meets| == 0 {
      return [];
    }
    var seen: set<string> := {};
    for i := 0 to |meets|
      invariant seen == LanguagesOf(meets[..i])
    {
      assert meets[..i + 1][..i] == meets[..i];
      if meets[i].language != "" {
        seen := seen + {meets[i].language};
      }
    }
    assert meets[..|meets|] == meets;
    LanguagesOfMembers(meets);
    r := SortedFromSet(seen);
  }

  /** `availableTags`: the distinct non-empty tags of all meets, sorted. */
  method AvailableTags(meets: seq<Meet>) returns (r: seq<string>)
    ensures StrictlySorted(r) && NoDuplicates(r)
    ensures forall x :: x in r <==> x != "" && exists m :: m in meets && HasTag(m, x)
  {
    if |meets| == 0 {
      return [];
    }
    var seen: set<string> := {};
    for i := 0 to |meets|
      invariant seen == TagsOf(meets[..i])
    {
      assert meets[..i + 1][..i] == meets[..i];
      if meets[i].tags.Some? {
        var tags := meets[i].tags.value;
        for j := 0 to |tags|
          invariant seen == TagsOf(meets[..i]) + NonEmptyOf(tags[..j])
        {
          assert tags[..j + 1][..j] == tags[..j];
          if tags[j] != "" {
            seen := seen + {tags[j]};
          }
        }
        assert tags[..|tags|] == tags;
      }
    }
    assert meets[..|meets|] == meets;
    TagsOfMembers(meets);
    r := SortedFromSet(seen);
  }

  // ---------------------------------------------------------------------------
  // The filter

  /** The free-text test: the lower-cased query, untrimmed, occurs in the
      lower-cased title, the creator's first name or one of the tags. */
  predicate TextMatch(m: Meet, query: string, lower: char -> char)
  {
    var q := Lowered(query, lower);
    Includes(Lowered(m.title, lower), q) ||
    Includes(Lowered(m.creator.firstName, lower), q) ||
    (m.tags.Some? && exists t :: t in m.tags.value && Includes(Lowered(t, lower), q))
  }

  predicate LanguageMatch(m: Meet, languages: seq<string>)
  {
    m.language != "" && m.language in languages
  }

  predicate TagMatch(m: Meet, tags: seq<string>)
  {
    exists t :: t in tags && HasTag(m, t)
  }

  /** What each criterion makes of a meet's own values: the empty query
      matches every meet, and so do its title, its creator's first name and
      each of its tags; a one-language selection matches it exactly when it
      is its non-empty language; a one-tag selection matches it exactly when
      it carries that tag; and a meet is shown
      when the search is its title and the selection its language. */
  lemma OwnValuesMatch(m: Meet, t: string, l: string, lower: char -> char)
    ensures TextMatch(m, "", lower)
    ensures TextMatch(m, m.title, lower) && TextMatch(m, m.creator.firstName, lower)
    ensures HasTag(m, t) ==> TextMatch(m, t, lower)
    ensures TagMatch(m, [t]) <==> HasTag(m, t)
    ensures LanguageMatch(m, [l]) <==> l == m.language && l != ""
    ensures LanguageMatch(m, [m.language]) <==> m.language != ""
    ensures m.tags.None? ==> !TagMatch(m, [t])
    ensures m.language != "" ==> Selected(m, Filters(m.title, [m.language], []), lower)
  {
    IncludesEmpty(Lowered(m.title, lower));
    assert StartsWith(Lowered(m.title, lower), Lowered(m.title, lower));
    var name := Lowered(m.creator.firstName, lower);
    assert StartsWith(name, name);
    if HasTag(m, t) {
      var lt := Lowered(t, lower);
      assert StartsWith(lt, lt);
      assert t in [t];
    }
    assert m.language in [m.language];
  }

  /** A meet is shown when it passes every active criterion; a criterion is
      inactive when its query is blank or its selection empty. */
  predicate Selected(m: Meet, f: Filters, lower: char -> char)
  {
    (AllSpace(f.query) || TextMatch(m, f.query, lower)) &&
    (|f.languages| == 0 || LanguageMatch(m, f.languages)) &&
    (|f.tags| == 0 || TagMatch(m, f.tags))
  }

  /** One stage of the filter effect: `filter` by `p` when the stage is
      active, the list unchanged otherwise. */
  ghost function Stage<T(!new)>(xs: seq<T>, active: bool, p: T -> bool): seq<T>
  {
    if active then Keep(xs, p) else xs
  }

  lemma StageOfKeep<T(!new)>(xs: seq<T>, p: T -> bool, active: bool, q: T -> bool,
                             pq: T -> bool)
    requires forall x :: pq(x) == (p(x) && (!active || q(x)))
    ensures Stage(Keep(xs, p), active, q) == Keep(xs, pq)
  {
    if active {
      KeepTwice(xs, p, q);
      KeepAgree(xs, x => p(x) && q(x), pq);
    } else {
      KeepAgree(xs, p, pq);
    }
  }

  /** The three stages together keep exactly the selected meets. */
  lemma StagesSelect(meets: seq<Meet>, f: Filters, lower: char -> char)
    ensures Stage(Stage(Stage(meets, Trim(f.query) != "", m => TextMatch(m, f.query, lower)),
                        |f.languages| > 0, m => LanguageMatch(m, f.languages)),
                  |f.tags| > 0, m => TagMatch(m, f.tags))
            == Keep(meets, m => Selected(m, f, lower))
  {
    TrimEmptyIffAllSpace(f.query);
    var textOn := Trim(f.query) != "";
    var text := (m: Meet) => TextMatch(m, f.query, lower);
    var language := (m: Meet) => LanguageMatch(m, f.languages);
    var tag := (m: Meet) => TagMatch(m, f.tags);
    var s1 := (m: Meet) => !textOn || text(m);
    var s2 := (m: Meet) => s1(m) && (!(|f.languages| > 0) || language(m));
    var s3 := (m: Meet) => s2(m) && (!(|f.tags| > 0) || tag(m));
    KeepAll(meets, (m: Meet) => true);
    StageOfKeep(meets, (m: Meet) => true, textOn, text, s1);
    StageOfKeep(meets, s1, |f.languages| > 0, language, s2);
    StageOfKeep(meets, s2, |f.tags| > 0, tag, s3);
    KeepAgree(meets, s3, m => Selected(m, f, lower));
  }

  /** The filter effect: it narrows `filtered` stage by stage. */
  method FilterMeets(meets: seq<Meet>, f: Filters, lower: char -> char) returns (r: seq<Meet>)
    ensures r == Keep(meets, m => Selected(m, f, lower))
  {
    if |meets| == 0 {
      return [];
    }
    r := meets;
    if Trim(f.query) != "" {
      r := Keep(r, m => TextMatch(m, f.query, lower));
    }
    ghost var afterText := r;
    if |f.languages| > 0 {
      r := Keep(r, m => LanguageMatch(m, f.languages));
    }
    assert r == Stage(afterText, |f.languages| > 0, m => LanguageMatch(m, f.languages));
    ghost var afterLanguages := r;
    if |f.tags| > 0 {
      r := Keep(r, m => TagMatch(m, f.tags));
    }
    assert r == Stage(afterLanguages, |f.tags| > 0, m => TagMatch(m, f.tags));
    StagesSelect(meets, f, lower);
  }

  /** What the filtered list is: the selected meets, in their original
      order, each passing every active criterion. */
  lemma FilteredMeets(meets: seq<Meet>, f: Filters, lower: char -> char)
    ensures var r := Keep(meets, m => Selected(m, f, lower));
            && IsSubsequence(r, meets)
            && (forall m :: m in r <==> m in meets && Selected(m, f, lower))
            && (f.languages != [] ==> forall m :: m in r ==> m.language != "" && m.language in f.languages)
            && (f.tags != [] ==> forall m :: m in r ==> TagMatch(m, f.tags))
            && (!AllSpace(f.query) ==> forall m :: m in r ==> TextMatch(m, f.query, lower))
            && (meets == [] ==> r == [])
  {
    KeepIsSubsequence(meets, m => Selected(m, f, lower));
  }

  // ---------------------------------------------------------------------------
  // Filter state

  /** `toggleLanguage`: an unselected language is appended at the end; a
      selected one is removed, the others keeping their order. */
  function ToggleLanguage(f: Filters, language: string): (g: Filters)
    ensures g.query == f.query && g.tags == f.tags
    ensures language in g.languages <==> language !in f.languages
    ensures language !in f.languages ==> g.languages == f.languages + [language]
    ensures language in f.languages ==> g.languages == RemoveAll(f.languages, language)
  {
    f.(languages := Toggle(f.languages, language))
  }

  /** `toggleTag`: the same rule for the tag selection. */
  function ToggleTag(f: Filters, tag: string): (g: Filters)
    ensures g.query == f.query && g.languages == f.languages
    ensures tag in g.tags <==> tag !in f.tags
    ensures tag !in f.tags ==> g.tags == f.tags + [tag]
    ensures tag in f.tags ==> g.tags == RemoveAll(f.tags, tag)
  {
    f.(tags := Toggle(f.tags, tag))
  }

  function ClearAllFilters(f: Filters): (g: Filters)
    ensures g.query == [] && g.languages == [] && g.tags == []
  {
    Filters("", [], [])
  }

  /** `hasActiveFilters`: some criterion of the filter is in force. */
  predicate HasActiveFilters(f: Filters)
    ensures HasActiveFilters(f) <==> f.languages != [] || f.tags != [] || !AllSpace(f.query)
  {
    TrimEmptyIffAllSpace(f.query);
    |f.languages| > 0 || |f.tags| > 0 || Trim(f.query) != ""
  }

  /** With no active filter every meet is shown, in its order; in particular
      after `clearAllFilters`. */
  lemma InactiveFiltersShowAll(meets: seq<Meet>, f: Filters, lower: char -> char)
    requires !HasActiveFilters(f)
    ensures Keep(meets, m => Selected(m, f, lower)) == meets
    ensures !HasActiveFilters(ClearAllFilters(f))
  {
    TrimEmptyIffAllSpace(f.query);
    KeepAll(meets, m => Selected(m, f, lower));
  }

  /** Toggling a language that is not selected on and off again restores the
      filter state. */
  lemma ToggleLanguageTwice(f: Filters, language: string)
    requires language !in f.languages
    ensures ToggleLanguage(ToggleLanguage(f, language), language) == f
  {
    ToggleTwice(f.languages, language);
  }

  /** Toggling a tag that is not selected on and off again restores the
      filter state. */
  lemma ToggleTagTwice(f: Filters, tag: string)
    requires tag !in f.tags
    ensures ToggleTag(ToggleTag(f, tag), tag) == f
  {
    ToggleTwice(f.tags, tag);
  }
}
