/** The navigation bar (frontend/src/components/layout/Navbar.jsx): the
    unread-message and notification badges, the user-search dropdown, and
    the avatar initials. */
module Navbar {
  import opened Js
  import opened Domain
  import ChatStore
  import MessagesPage
  import ChatWindow

  /** `Object.values(unreadCounts).reduce((a, b) => a + b, 0)`: addition is
      commutative, so the order in which the values are visited does not
      matter and the sum is taken here in any order. */
  ghost function TotalUnread(counts: map<Id, int>): (r: int)
    ensures counts == map[] ==> r == 0
    decreases |counts.Keys|
  {
    if counts == map[] then 0
    else
      var k :| k in counts;
      assert counts.Keys == (counts - {k}).Keys + {k};
      counts[k] + TotalUnread(counts - {k})
  }

  /** With every counter at least one, the total is at least the number of
      partners with unread messages. */
  lemma {:induction false} TotalUnreadAtLeastPartners(counts: map<Id, int>)
    requires forall p :: p in counts ==> counts[p] >= 1
    ensures TotalUnread(counts) >= |counts|
    decreases |counts.Keys|
  {
    if counts != map[] {
      var k :| k in counts && TotalUnread(counts) == counts[k] + TotalUnread(counts - {k});
      assert counts.Keys == (counts - {k}).Keys + {k};
      TotalUnreadAtLeastPartners(counts - {k});
    }
  }

  /** The messages badge: `totalUnreadMessages > 0`. */
  ghost predicate MessageBadge(store: ChatStore.ChatState) {
    TotalUnread(store.unreadCounts) > 0
  }

  /** With the chat store's counters all positive (which its actions keep),
      the messages badge shows exactly when some partner has unread
      messages. */
  lemma MessageBadgeIff(store: ChatStore.ChatState)
    requires ChatStore.PositiveCounts(store)
    ensures MessageBadge(store) <==> |store.unreadCounts| > 0
  {
    TotalUnreadAtLeastPartners(store.unreadCounts);
  }

  /** After the messages page has synced the counters from the loaded
      conversations, the badge shows exactly when some conversation has a
      positive unread count. */
  lemma MessageBadgeAfterSync(store: ChatStore.ChatState, cs: seq<MessagesPage.ConversationItem>)
    ensures var synced := MessagesPage.SyncUnread(store, Some(cs));
      MessageBadge(synced) <==> exists i :: 0 <= i < |cs| && cs[i].unreadCount > 0
  {
    var synced := MessagesPage.SyncUnread(store, Some(cs));
    MessageBadgeIff(synced);
    if exists i :: 0 <= i < |cs| && cs[i].unreadCount > 0 {
      var i :| 0 <= i < |cs| && cs[i].unreadCount > 0;
      assert cs[i].otherUser.id in synced.unreadCounts;
    }
  }

  /** The notifications badge: `unreadNotifications > 0`. */
  predicate NotificationBadge(unreadCount: int) {
    unreadCount > 0
  }

  /** The search box: its text and whether the dropdown may show. */
  datatype Search = Search(query: string, showResults: bool)

  const InitialSearch := Search("", false)

  /** `useSearchUsers(query)` runs only for queries of two or more characters. */
  predicate SearchEnabled(query: string) {
    |query| >= 2
  }

  /** Typing sets the query and opens the dropdown. */
  function Type(s: Search, value: string): (r: Search)
    ensures r.query == value && r.showResults
  {
    Search(value, true)
  }

  /** Focusing opens the dropdown and keeps the query. */
  function Focus(s: Search): (r: Search)
    ensures r.query == s.query && r.showResults
  {
    s.(showResults := true)
  }

  /** The delayed blur handler closes the dropdown and keeps the query. */
  function Blur(s: Search): (r: Search)
    ensures r.query == s.query && !r.showResults
  {
    s.(showResults := false)
  }

  /** Choosing a result navigates to `/profile/<id>`, clears the query and
      closes the dropdown. */
  function ChooseResult(s: Search, userId: Id): (r: (Search, string))
    ensures r.0 == InitialSearch
    ensures r.1 == "/profile/" + userId
  {
    (Search("", false), "/profile/" + userId)
  }

  /** The dropdown renders when it is open, the query has at least two
      characters and the search has data (an empty list included). */
  predicate ShowsDropdown<T>(s: Search, results: Option<seq<T>>) {
    s.showResults && |s.query| >= 2 && results.Some?
  }

  /** The dropdown only ever shows for a query the search hook runs for,
      it is hidden after a result is chosen and after the blur, and typing
      two or more characters shows it once results are there. */
  lemma DropdownFollowsSearch<T>(s: Search, results: Option<seq<T>>, value: string, userId: Id)
    ensures ShowsDropdown(s, results) ==> SearchEnabled(s.query)
    ensures !ShowsDropdown(ChooseResult(s, userId).0, results)
    ensures !ShowsDropdown(Blur(s), results)
    ensures ShowsDropdown(Type(s, value), results) <==> SearchEnabled(value) && results.Some?
  {
  }

  /** One character of a template literal `${part[0]}`: the first character
      of the part, or the text `undefined` when the part is empty. */
  function FirstOrUndefined(part: string): (r: string)
    ensures part != [] ==> r == [part[0]]
    ensures part == [] ==> r == "undefined"
  {
    if part == [] then "undefined" else [part[0]]
  }

  /** `getInitials` as written: a falsy name gives `U`; otherwise the name
      is split on single spaces and, with two or more pieces, the first
      characters of the first two pieces are joined and upper-cased, else
      the first two characters are upper-cased. An empty piece (a leading,
      trailing or doubled space) has no first character. */
  function InitialsAsWritten(name: JStr): (r: string)
    ensures !Truthy(name) ==> r == "U"
    ensures Truthy(name) && |Split(name.s, ' ')| < 2 ==> r == Upper(Prefix(name.s, 2))
    ensures Truthy(name) && |Split(name.s, ' ')| >= 2 ==>
      var parts := Split(name.s, ' ');
      r == Upper(FirstOrUndefined(parts[0]) + FirstOrUndefined(parts[1]))
  {
    if !Truthy(name) then "U"
    else
      var parts := Split(name.s, ' ');
      if |parts| >= 2 then Upper(FirstOrUndefined(parts[0]) + FirstOrUndefined(parts[1]))
      else Upper(Prefix(name.s, 2))
  }

  /** A string splits into two or more pieces exactly when it holds the separator. */
  lemma {:induction false} SpaceSplits(s: string)
    ensures |Split(s, ' ')| >= 2 <==> ' ' in s
  {
    CountSpace(s);
  }

  lemma {:induction false} CountSpace(s: string)
    ensures CountChar(s, ' ') > 0 <==> ' ' in s
  {
    if s != [] {
      CountSpace(s[1..]);
      assert s == [s[0]] + s[1..];
    }
  }

  /** A one-word name with a trailing space, which the registration rules
      accept, gets its first letter followed by the text `undefined`,
      upper-cased: ten characters instead of at most two ("Ann " gives
      "AUNDEFINED"). */
  lemma TrailingSpaceInitials(w: string)
    requires w != [] && forall i :: 0 <= i < |w| ==> !IsSpace(w[i])
    ensures InitialsAsWritten(Str(w + " ")) == Upper([w[0]] + "undefined")
    ensures |InitialsAsWritten(Str(w + " "))| == 10
  {
    assert Split("", ' ') == [""];
    assert w + " " + "" == w + " ";
    SplitAround(w, "");
    assert FirstOrUndefined(w) + FirstOrUndefined("") == [w[0]] + "undefined";
  }

  /** The initials the navigation bar should show: the same as the chat
      window's, which split the trimmed name on runs of white space. */
  function Initials(name: JStr): (r: string)
    ensures 1 <= |r| <= 2
    ensures Truthy(name) ==> ChatWindow.FromName(r, name.s)
    ensures !Truthy(name) ==> r == "U"
  {
    ChatWindow.InitialsShape(name);
    ChatWindow.GetInitials(name)
  }

  /** For a name of two space-separated non-empty words the two versions
      agree, so the correction changes only the names with stray spaces. */
  lemma InitialsAgreeOnTwoWords(first: string, second: string)
    requires first != [] && second != []
    requires forall i :: 0 <= i < |first| ==> !IsSpace(first[i])
    requires forall i :: 0 <= i < |second| ==> !IsSpace(second[i])
    ensures Initials(Str(first + " " + second)) == InitialsAsWritten(Str(first + " " + second))
  {
    var s := first + " " + second;
    NoSpaceSplit(second);
    SplitAround(first, second);
    TwoWords(first, second);
    TrimUnchanged(s, first, second);
    WrittenOfTwoParts(s, [first, second]);
  }

  /** With two non-empty pieces, the written version takes their first
      characters, as the chat window's version does with two words. */
  lemma WrittenOfTwoParts(s: string, parts: seq<string>)
    requires s != [] && Split(s, ' ') == parts && |parts| == 2 && parts[0] != [] && parts[1] != []
    ensures InitialsAsWritten(Str(s)) == [UpperChar(parts[0][0]), UpperChar(parts[1][0])]
  {
    var t := FirstOrUndefined(parts[0]) + FirstOrUndefined(parts[1]);
    assert t == [parts[0][0], parts[1][0]];
  }

  lemma {:induction false} NoSpaceSplit(w: string)
    requires forall i :: 0 <= i < |w| ==> !IsSpace(w[i])
    ensures Split(w, ' ') == [w]
  {
    if w != [] {
      NoSpaceSplit(w[1..]);
      assert w == [w[0]] + w[1..];
    }
  }

  lemma {:induction false} SplitAround(a: string, b: string)
    requires forall i :: 0 <= i < |a| ==> !IsSpace(a[i])
    requires Split(b, ' ') == [b]
    ensures Split(a + " " + b, ' ') == [a, b]
  {
    if a == [] {
      assert a + " " + b == [' '] + b;
      assert (a + " " + b)[1..] == b;
    } else {
      assert (a + " " + b)[1..] == a[1..] + " " + b;
      SplitAround(a[1..], b);
      assert [a[0]] + a[1..] == a;
    }
  }

  lemma TwoWords(a: string, b: string)
    requires a != [] && b != []
    requires forall i :: 0 <= i < |a| ==> !IsSpace(a[i])
    requires forall i :: 0 <= i < |b| ==> !IsSpace(b[i])
    ensures Words(a + " " + b) == [a, b]
  {
    assert a + " " + b == a + ([' '] + b);
    WordThen(a, [' '] + b);
    WordsAfterSpace(b);
    WordOne(b);
  }

  lemma WordOne(w: string)
    requires w != []
    requires forall i :: 0 <= i < |w| ==> !IsSpace(w[i])
    ensures Words(w) == [w]
  {
    WordThen(w, []);
    assert w + [] == w;
  }

  /** A word followed by nothing or by white space is the first word. */
  lemma {:induction false} WordThen(w: string, rest: string)
    requires w != []
    requires forall i :: 0 <= i < |w| ==> !IsSpace(w[i])
    requires rest == [] || IsSpace(rest[0])
    ensures Words(w + rest) == [w] + Words(rest)
  {
    var c := [w[0]];
    assert w == c + w[1..];
    assert w + rest == c + (w[1..] + rest);
    if |w| == 1 {
      assert w[1..] + rest == rest;
      if rest == [] {
        assert Words(c) == [c];
      } else {
        WordsStep(c, rest);
      }
    } else {
      WordThen(w[1..], rest);
      WordsStep(c, w[1..] + rest);
    }
  }

  /** A leading space starts no word. */
  lemma WordsAfterSpace(t: string)
    ensures Words([' '] + t) == Words(t)
  {
    assert ([' '] + t)[1..] == t;
  }

  /** One more leading letter either extends the first word or starts one. */
  lemma WordsStep(c: string, t: string)
    requires |c| == 1 && !IsSpace(c[0]) && t != []
    ensures !IsSpace(t[0]) && Words(t) != [] ==> Words(c + t) == [c + Words(t)[0]] + Words(t)[1..]
    ensures IsSpace(t[0]) ==> Words(c + t) == [c] + Words(t)
  {
    assert (c + t)[1..] == t;
    assert (c + t)[0] == c[0];
    assert [c[0]] == c;
  }

  lemma TrimUnchanged(s: string, a: string, b: string)
    requires a != [] && b != [] && s == a + " " + b
    requires !IsSpace(a[0]) && !IsSpace(b[|b| - 1])
    ensures Trim(s) == s
  {
    assert s[0] == a[0];
    assert s[|s| - 1] == b[|b| - 1];
  }
}
