/** The chat window component (frontend/src/components/chat/ChatWindow.jsx):
    which list it shows, which live events it lets into the store, the
    typing indicator (idle/typing with one re-armed 2500 ms timer, whose
    expiry is an explicit event), submitting, the auto-scroll decision and
    the avatar initials. */
module ChatWindow {
  import opened Js
  import opened Domain
  import opened Realtime
  import ChatStore

  /** The inactivity delay after which `typing:stop` is sent. */
  const TypingTimeoutMs: nat := 2500

  /** Distance from the bottom, in pixels, under which the view counts as "at the bottom". */
  const BottomThreshold: int := 120

  /** `useChatStore(s => s.messages[userId]) || conversation || []`: a stored
      list wins even when it is empty (an array is truthy). */
  function DisplayedList(store: ChatStore.ChatState, peer: Id, conversation: Option<seq<Message>>): (r: seq<Message>)
    ensures peer in store.messages ==> r == store.messages[peer]
    ensures peer !in store.messages && conversation.Some? ==> r == conversation.value
    ensures peer !in store.messages && conversation.None? ==> r == []
  {
    if peer in store.messages then store.messages[peer]
    else if conversation.Some? then conversation.value
    else []
  }

  /** The seeding effect: a fetched conversation replaces the stored list. */
  function Seed(store: ChatStore.ChatState, peer: Id, conversation: Option<seq<Message>>): (r: ChatStore.ChatState)
    ensures conversation.None? ==> r == store
    ensures conversation.Some? ==> r == ChatStore.SetMessages(store, peer, conversation.value)
  {
    if conversation.Some? then ChatStore.SetMessages(store, peer, conversation.value) else store
  }

  /** Once the fetched conversation has been seeded, the window shows exactly
      it — also replacing any live message stored before the fetch ended. */
  lemma SeededWindowShowsConversation(store: ChatStore.ChatState, peer: Id, conversation: seq<Message>)
    ensures DisplayedList(Seed(store, peer, Some(conversation)), peer, Some(conversation)) == conversation
  {
  }

  /** The `message:new` listener: only messages from or to the open peer enter the store. */
  function OnLiveMessage(store: ChatStore.ChatState, peer: Id, m: Message, currentUserId: Option<Id>): (r: ChatStore.ChatState)
    ensures m.senderId == peer || m.receiverId == peer ==> r == ChatStore.AddMessage(store, m, currentUserId)
    ensures !(m.senderId == peer || m.receiverId == peer) ==> r == store
  {
    if m.senderId == peer || m.receiverId == peer then ChatStore.AddMessage(store, m, currentUserId) else store
  }

  /** The `user:typing` listener: only the open peer's typing state is recorded. */
  function OnTypingEvent(store: ChatStore.ChatState, peer: Id, typist: Option<Id>, isTyping: bool): (r: ChatStore.ChatState)
    ensures typist == Some(peer) ==> r == ChatStore.SetTyping(store, peer, isTyping)
    ensures typist != Some(peer) ==> r == store
  {
    if typist == Some(peer) then ChatStore.SetTyping(store, peer, isTyping) else store
  }

  /** The window's own state: the open peer, the input text, the local
      typing flag and whether the stop timer is pending. */
  datatype View = View(peer: Id, input: string, isTyping: bool, timerArmed: bool)

  /** The typing flag and the pending timer go together. */
  predicate Consistent(v: View) {
    v.isTyping <==> v.timerArmed
  }

  datatype Reaction = Reaction(view: View, out: seq<InEvent>)

  /** `handleTyping`: the input takes the new value; `typing:start` is sent
      only on the idle-to-typing transition; the single timer is cancelled
      and armed again. */
  function Keystroke(v: View, value: string): (r: Reaction)
    ensures r.view == v.(input := value, isTyping := true, timerArmed := true)
    ensures !v.isTyping ==> r.out == [TypingStart(v.peer)]
    ensures v.isTyping ==> r.out == []
  {
    var out := if !v.isTyping then [TypingStart(v.peer)] else [];
    Reaction(v.(input := value, isTyping := true, timerArmed := true), out)
  }

  /** The stop timer expires: back to idle with exactly one `typing:stop`.
      Without a pending timer there is nothing to fire. */
  function TimerFires(v: View): (r: Reaction)
    ensures v.timerArmed ==> r == Reaction(v.(isTyping := false, timerArmed := false), [TypingStop(v.peer)])
    ensures !v.timerArmed ==> r == Reaction(v, [])
  {
    if v.timerArmed then Reaction(v.(isTyping := false, timerArmed := false), [TypingStop(v.peer)])
    else Reaction(v, [])
  }

  datatype Submission = Submission(view: View, store: ChatStore.ChatState, request: Option<(Id, string)>, out: seq<InEvent>)

  /** `handleSubmit`. Whitespace-only input does nothing and sends no
      request. Otherwise the request is the open peer with the trimmed text;
      `sent` is what the request resolved to (None when it failed). On
      success the message is relayed over the socket, added to the store,
      the input cleared, the timer cancelled, the state idle and
      `typing:stop` sent; on failure everything stays as it was. */
  function Submit(v: View, store: ChatStore.ChatState, currentUserId: Option<Id>, sent: Option<Message>): (r: Submission)
    ensures AllSpace(v.input) <==> r.request.None?
    ensures AllSpace(v.input) ==> r == Submission(v, store, None, [])
    ensures r.request.Some? ==> r.request.value == (v.peer, Trim(v.input)) && Trim(v.input) != ""
    ensures r.request.Some? && sent.None? ==> r.view == v && r.store == store && r.out == []
    ensures r.request.Some? && sent.Some? ==>
      && r.view == v.(input := "", isTyping := false, timerArmed := false)
      && r.store == ChatStore.AddMessage(store, sent.value, currentUserId)
      && r.out == [MessageSend(sent.value), TypingStop(v.peer)]
  {
    var text := Trim(v.input);
    if text == "" then Submission(v, store, None, [])
    else match sent
      case None => Submission(v, store, Some((v.peer, text)), [])
      case Some(m) =>
        Submission(v.(input := "", isTyping := false, timerArmed := false),
                   ChatStore.AddMessage(store, m, currentUserId), Some((v.peer, text)),
                   [MessageSend(m), TypingStop(v.peer)])
  }

  /** The user-side events the window reacts to. */
  datatype Input = Type(value: string) | Expire | Send(sent: Option<Message>)

  function Step(v: View, i: Input): Reaction {
    match i
    case Type(value) => Keystroke(v, value)
    case Expire => TimerFires(v)
    case Send(sent) =>
      var s := Submit(v, ChatStore.Initial, None, sent);
      Reaction(s.view, s.out)
  }

  /** The typing events of a stream of emissions are well nested relative
      to the flag `typing`: a `typing:start` is only sent while idle, after
      which the state is typing until a `typing:stop`. */
  predicate StartsAfterStops(typing: bool, out: seq<InEvent>)
    decreases |out|
  {
    if out == [] then true
    else match out[0]
      case TypingStart(_) => !typing && StartsAfterStops(true, out[1..])
      case TypingStop(_) => StartsAfterStops(false, out[1..])
      case _ => StartsAfterStops(typing, out[1..])
  }

  lemma {:induction false} StartsAfterStopsConcat(typing: bool, a: seq<InEvent>, mid: bool, b: seq<InEvent>)
    requires StartsAfterStops(typing, a) && StartsAfterStops(mid, b)
    requires mid == TypingAfter(typing, a)
    ensures StartsAfterStops(typing, a + b)
    decreases |a|
  {
    if a != [] {
      assert (a + b)[1..] == a[1..] + b;
      match a[0]
      case TypingStart(_) => StartsAfterStopsConcat(true, a[1..], mid, b);
      case TypingStop(_) => StartsAfterStopsConcat(false, a[1..], mid, b);
      case _ => StartsAfterStopsConcat(typing, a[1..], mid, b);
    } else {
      assert a + b == b;
    }
  }

  /** The typing state a receiver infers from the stream. */
  function TypingAfter(typing: bool, out: seq<InEvent>): bool
    decreases |out|
  {
    if out == [] then typing
    else match out[0]
      case TypingStart(_) => TypingAfter(true, out[1..])
      case TypingStop(_) => TypingAfter(false, out[1..])
      case _ => TypingAfter(typing, out[1..])
  }

  /** The window's reactions to a sequence of inputs, emissions concatenated. */
  function Run(v: View, inputs: seq<Input>): Reaction
    decreases |inputs|
  {
    if inputs == [] then Reaction(v, [])
    else
      var first := Step(v, inputs[0]);
      var rest := Run(first.view, inputs[1..]);
      Reaction(rest.view, first.out + rest.out)
  }

  /** Typing facts of a reaction from a consistent view. */
  predicate TypingSound(v: View, r: Reaction) {
    && Consistent(r.view)
    && StartsAfterStops(v.isTyping, r.out)
    && TypingAfter(v.isTyping, r.out) == r.view.isTyping
  }

  lemma KeystrokeTyping(v: View, value: string)
    requires Consistent(v)
    ensures TypingSound(v, Keystroke(v, value))
  {
    var r := Keystroke(v, value);
    if !v.isTyping {
      assert r.out[1..] == [];
    }
  }

  lemma TimerFiresTyping(v: View)
    requires Consistent(v)
    ensures TypingSound(v, TimerFires(v))
  {
    var r := TimerFires(v);
    if v.timerArmed {
      assert r.out[1..] == [];
    }
  }

  lemma SubmitTyping(v: View, sent: Option<Message>)
    requires Consistent(v)
    ensures var s := Submit(v, ChatStore.Initial, None, sent);
      TypingSound(v, Reaction(s.view, s.out))
  {
    var s := Submit(v, ChatStore.Initial, None, sent);
    if s.out != [] {
      assert s.out[1..] == [TypingStop(v.peer)];
      assert s.out[1..][1..] == [];
      assert TypingAfter(v.isTyping, s.out[1..]) == TypingAfter(false, []);
      assert StartsAfterStops(v.isTyping, s.out[1..]);
    }
  }

  /** One step keeps the flag and the timer together, never sends a second
      `typing:start` while typing, and leaves the local flag equal to what
      the peer infers from the stream. */
  lemma StepTyping(v: View, i: Input)
    requires Consistent(v)
    ensures TypingSound(v, Step(v, i))
  {
    match i
    case Type(value) => KeystrokeTyping(v, value);
    case Expire => TimerFiresTyping(v);
    case Send(sent) => SubmitTyping(v, sent);
  }

  /** Over any sequence of keystrokes, timer expiries and submissions from
      a consistent state, `typing:start` is never sent twice without a
      `typing:stop` in between, and the local flag ends equal to what the
      peer infers from the stream. */
  lemma {:induction false} TypingEventsWellNested(v: View, inputs: seq<Input>)
    requires Consistent(v)
    ensures Consistent(Run(v, inputs).view)
    ensures StartsAfterStops(v.isTyping, Run(v, inputs).out)
    ensures TypingAfter(v.isTyping, Run(v, inputs).out) == Run(v, inputs).view.isTyping
    decreases |inputs|
  {
    if inputs != [] {
      var first := Step(v, inputs[0]);
      StepTyping(v, inputs[0]);
      TypingEventsWellNested(first.view, inputs[1..]);
      var rest := Run(first.view, inputs[1..]);
      StartsAfterStopsConcat(v.isTyping, first.out, first.view.isTyping, rest.out);
      TypingAfterConcat(v.isTyping, first.out, rest.out);
    }
  }

  lemma {:induction false} TypingAfterConcat(typing: bool, a: seq<InEvent>, b: seq<InEvent>)
    ensures TypingAfter(typing, a + b) == TypingAfter(TypingAfter(typing, a), b)
    decreases |a|
  {
    if a != [] {
      assert (a + b)[1..] == a[1..] + b;
      match a[0]
      case TypingStart(_) => TypingAfterConcat(true, a[1..], b);
      case TypingStop(_) => TypingAfterConcat(false, a[1..], b);
      case _ => TypingAfterConcat(typing, a[1..], b);
    } else {
      assert a + b == b;
    }
  }

  /** Scroll metrics of the message container, when it is mounted. */
  datatype Metrics = Metrics(scrollHeight: int, scrollTop: int, clientHeight: int)

  /** `isAtBottom`: an unmounted container counts as at the bottom. */
  predicate IsAtBottom(el: Option<Metrics>) {
    el.None? || el.value.scrollHeight - el.value.scrollTop - el.value.clientHeight < BottomThreshold
  }

  /** The auto-scroll effect: None when it does not scroll, otherwise whether
      the jump is instant (the user had scrolled away and the message is
      theirs) rather than smooth. It scrolls iff the list grew and the last
      message is the user's own or the view was following the bottom. */
  function AutoScroll(messages: seq<Message>, previousLength: nat, currentUserId: Option<Id>, following: bool): (r: Option<bool>)
    ensures r.Some? <==>
      && |messages| > 0 && |messages| > previousLength
      && (currentUserId == Some(messages[|messages| - 1].senderId) || following)
    ensures r.Some? ==> r.value == (!following && currentUserId == Some(messages[|messages| - 1].senderId))
  {
    if |messages| == 0 then None
    else
      var isMine := currentUserId == Some(messages[|messages| - 1].senderId);
      var isNew := |messages| > previousLength;
      if isNew && (isMine || following) then Some(!following && isMine) else None
  }

  /** What the window keeps between renders for auto-scrolling: whether the
      view follows the bottom (`shouldAutoScrollRef`) and the list length the
      effect last saw (`previousMessagesLength`). */
  datatype ScrollState = ScrollState(following: bool, previousLength: nat)

  /** On mount the view follows the bottom and has seen no message. */
  const InitialScroll := ScrollState(true, 0)

  /** The container's `scroll` listener: afterwards the view follows the
      bottom iff it is within 120 px of it (or the container is gone). */
  function OnScroll(st: ScrollState, el: Option<Metrics>): (r: ScrollState)
    ensures r.previousLength == st.previousLength
    ensures r.following <==> el.None? || el.value.scrollHeight - el.value.scrollTop - el.value.clientHeight < 120
  {
    st.(following := IsAtBottom(el))
  }

  /** The auto-scroll effect on a new message list: the scroll it requests
      (as `AutoScroll` decides from the remembered state) and the state
      after it, which remembers the list's length and nothing else. */
  function OnMessages(st: ScrollState, messages: seq<Message>, currentUserId: Option<Id>): (r: (Option<bool>, ScrollState))
    ensures r.0 == AutoScroll(messages, st.previousLength, currentUserId, st.following)
    ensures r.1 == ScrollState(st.following, |messages|)
  {
    (AutoScroll(messages, st.previousLength, currentUserId, st.following), st.(previousLength := |messages|))
  }

  /** The 120 px rule decides the next scroll: after a scroll event, a list
      that grew is followed smoothly when the view was near the bottom;
      otherwise only the user's own message scrolls, and then instantly. */
  lemma ScrollFollowsLastScroll(st: ScrollState, el: Option<Metrics>, messages: seq<Message>, currentUserId: Option<Id>)
    requires |messages| > st.previousLength
    ensures var r := OnMessages(OnScroll(st, el), messages, currentUserId).0;
      var mine := currentUserId == Some(messages[|messages| - 1].senderId);
      && ((el.None? || el.value.scrollHeight - el.value.scrollTop - el.value.clientHeight < 120) ==> r == Some(false))
      && ((el.Some? && el.value.scrollHeight - el.value.scrollTop - el.value.clientHeight >= 120) ==>
            (r.Some? <==> mine) && (mine ==> r == Some(true)))
  {
  }

  /** The first non-empty list after mounting is scrolled to, smoothly. */
  lemma FirstListScrolls(messages: seq<Message>, currentUserId: Option<Id>)
    requires messages != []
    ensures OnMessages(InitialScroll, messages, currentUserId).0 == Some(false)
  {
  }

  /** `getInitials` of the chat window: "U" for a falsy name; the upper-cased
      first letters of the first two white-space separated words of the
      trimmed name when there are two; otherwise the first two characters of
      the name as given, upper-cased. */
  function GetInitials(name: JStr): (r: string)
    ensures !Truthy(name) ==> r == "U"
    ensures Truthy(name) && |Words(Trim(name.s))| >= 2 ==>
      var ws := Words(Trim(name.s));
      r == [UpperChar(ws[0][0]), UpperChar(ws[1][0])]
    ensures Truthy(name) && |Words(Trim(name.s))| < 2 ==> r == Upper(Prefix(name.s, 2))
  {
    if !Truthy(name) then "U"
    else
      var parts := Words(Trim(name.s));
      if |parts| >= 2 then [UpperChar(parts[0][0]), UpperChar(parts[1][0])]
      else Upper(Prefix(name.s, 2))
  }

  /** The initials are one or two characters, each the upper-case form of a
      character of the name. */
  lemma InitialsShape(name: JStr)
    ensures 1 <= |GetInitials(name)| <= 2
    ensures Truthy(name) ==> FromName(GetInitials(name), name.s)
  {
    if Truthy(name) {
      if |Words(Trim(name.s))| >= 2 {
        WordInitials(name);
      } else {
        PrefixFromName(name.s);
      }
    }
  }

  /** The two-word case: each initial comes from a first letter. */
  lemma WordInitials(name: JStr)
    requires Truthy(name) && |Words(Trim(name.s))| >= 2
    ensures |GetInitials(name)| == 2 && FromName(GetInitials(name), name.s)
  {
    var ws := Words(Trim(name.s));
    FirstLettersIn(name.s, ws);
    PairFromName(name.s, ws[0][0], ws[1][0]);
  }

  /** Every character of `r` is the upper-case form of a character of `s`. */
  predicate FromName(r: string, s: string) {
    forall i :: 0 <= i < |r| ==> exists c :: c in s && r[i] == UpperChar(c)
  }

  /** The first letters of the trimmed name's words are letters of the name. */
  lemma FirstLettersIn(s: string, ws: seq<string>)
    requires ws == Words(Trim(s)) && |ws| >= 2
    ensures ws[0][0] in s && ws[1][0] in s
  {
    var t := Trim(s);
    assert ws[0][0] in t && ws[1][0] in t;
  }

  lemma PairFromName(s: string, a: char, b: char)
    requires a in s && b in s
    ensures FromName([UpperChar(a), UpperChar(b)], s)
  {
    var r := [UpperChar(a), UpperChar(b)];
    forall i | 0 <= i < |r|
      ensures exists c :: c in s && r[i] == UpperChar(c)
    {
      if i == 0 {
        assert r[i] == UpperChar(a);
      } else {
        assert r[i] == UpperChar(b);
      }
    }
  }

  lemma PrefixFromName(s: string)
    requires s != []
    ensures 1 <= |Upper(Prefix(s, 2))| <= 2 && FromName(Upper(Prefix(s, 2)), s)
  {
    var r := Upper(Prefix(s, 2));
    forall i | 0 <= i < |r|
      ensures exists c :: c in s && r[i] == UpperChar(c)
    {
      assert r[i] == UpperChar(s[i]) && s[i] in s;
    }
  }

}
