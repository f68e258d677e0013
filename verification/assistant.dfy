/**
  The mounted assistant drawer (src/components/features/ChatBot.jsx): a
  message list, an input box, four suggestion buttons and canned answers.
  A send appends the user's message at once and schedules the bot's reply;
  the 1.5 s timer becomes an explicit `Deliver` step that consumes the
  oldest scheduled reply.
 */
module Assistant {
  import opened JsText

  datatype QA = QA(question: string, answer: string)

  const AskCode: string := "How can AI help with my code?"
  const AskResume: string := "What's special about the resume analyzer?"
  const AskCommunity: string := "How does the community feature work?"
  const AskSecurity: string := "Is my code secure in the cloud workspace?"

  /** `predefinedQuestions`, in declaration order. */
  const Predefined: seq<QA> := [
    QA(AskCode,
       "Our AI can help you write better code by providing real-time suggestions, identifying bugs, explaining complex code segments, and even helping with code optimization. It's like having a senior developer by your side 24/7!"),
    QA(AskResume,
       "Our resume analyzer uses AI to evaluate your resume against industry standards, provides keyword optimization, suggests improvements, and helps you match job requirements. It's trained on millions of successful resumes!"),
    QA(AskCommunity,
       "Our community platform connects you with developers worldwide. You can share code, ask questions, participate in discussions, and collaborate on projects. Plus, our AI helps moderate and enhance discussions!"),
    QA(AskSecurity,
       "Absolutely! We use enterprise-grade encryption, secure authentication, and regular security audits. Your code is protected with the same security standards used by major tech companies.")
  ]

  const Greeting: string := "Hi! I'm your AI assistant. How can I help you today?"
  const FallbackPrefix: string := "I understand you're asking about "
  const FallbackSuffix: string := ". While I don't have a specific answer for that, I can help you with code assistance, resume analysis, community features, and workspace security. What would you like to know about these topics?"

  datatype Message = Message(text: string, isBot: bool, isNew: bool)

  /** `pending` holds the texts of the replies whose timers have not fired
      yet, oldest first (all timers have the same delay). */
  datatype ChatState = ChatState(
    isOpen: bool,
    messages: seq<Message>,
    input: string,
    showSuggestions: bool,
    isTyping: bool,
    pending: seq<string>)

  const Initial: ChatState :=
    ChatState(false, [Message(Greeting, true, false)], "", true, false, [])

  /** Entry `i`'s lower-cased question contains the lower-cased query. */
  predicate Matches(i: nat, query: string)
    requires i < |Predefined|
  {
    Contains(Lower(Predefined[i].question), Lower(query))
  }

  /** Entry `i` is the first entry that matches. */
  predicate IsFirstMatch(i: nat, query: string)
  {
    i < |Predefined| && Matches(i, query) && forall j :: 0 <= j < i ==> !Matches(j, query)
  }

  /** No entry matches. */
  predicate NoMatch(query: string)
  {
    forall j :: 0 <= j < |Predefined| ==> !Matches(j, query)
  }

  function FindFrom(query: string, i: nat): (r: Option<nat>)
    requires i <= |Predefined|
    ensures r.Some? ==> i <= r.value < |Predefined| && Matches(r.value, query)
    ensures r.Some? ==> forall j :: i <= j < r.value ==> !Matches(j, query)
    ensures r.None? ==> forall j :: i <= j < |Predefined| ==> !Matches(j, query)
    decreases |Predefined| - i
  {
    if i == |Predefined| then None
    else if Matches(i, query) then Some(i)
    else FindFrom(query, i + 1)
  }

  /** `predefinedQuestions.find(...)`: the index of the first matching entry,
      or `None` when no entry matches. */
  function Find(query: string): (r: Option<nat>)
    ensures r.Some? <==> !NoMatch(query)
    ensures r.Some? ==> IsFirstMatch(r.value, query)
  {
    FindFrom(query, 0)
  }

  /** The text of the bot reply scheduled for `query`: the first matching
      entry's answer, otherwise the fallback sentence with the query embedded
      verbatim. */
  function ReplyFor(query: string): (r: string)
    ensures forall i: nat :: IsFirstMatch(i, query) ==> r == Predefined[i].answer
    ensures NoMatch(query) ==>
      && |r| == |FallbackPrefix| + |query| + |FallbackSuffix|
      && r[..|FallbackPrefix|] == FallbackPrefix
      && r[|FallbackPrefix|..|FallbackPrefix| + |query|] == query
      && r[|FallbackPrefix| + |query|..] == FallbackSuffix
  {
    match Find(query)
    case Some(i) =>
      assert forall j :: IsFirstMatch(j, query) ==> j == i;
      Predefined[i].answer
    case None =>
      assert forall j: nat :: !IsFirstMatch(j, query);
      FallbackPrefix + query + FallbackSuffix
  }

  /** `handleSend(text)`. */
  function Send(s: ChatState, text: string): (r: ChatState)
    ensures IsBlank(text) ==> r == s
    ensures !IsBlank(text) ==>
      && r.messages == s.messages + [Message(text, false, true)]
      && r.input == []
      && !r.showSuggestions
      && r.isTyping
      && r.pending == s.pending + [ReplyFor(text)]
      && r.isOpen == s.isOpen
  {
    TrimEmptyIffBlank(text);
    if Trim(text) == [] then s
    else
      s.(messages := s.messages + [Message(text, false, true)],
         input := "",
         showSuggestions := false,
         isTyping := true,
         pending := s.pending + [ReplyFor(text)])
  }

  /** The oldest scheduled timer fires. */
  function Deliver(s: ChatState): (r: ChatState)
    requires |s.pending| > 0
    ensures |r.messages| == |s.messages| + 1
    ensures r.messages[..|s.messages|] == s.messages
    ensures r.messages[|s.messages|] == Message(s.pending[0], true, true)
    ensures !r.isTyping
    ensures s.pending == [s.pending[0]] + r.pending
    ensures r.(messages := s.messages, isTyping := s.isTyping, pending := s.pending) == s
  {
    s.(isTyping := false,
       messages := s.messages + [Message(s.pending[0], true, true)],
       pending := s.pending[1..])
  }

  /** A question matches itself. */
  lemma SelfMatch(i: nat)
    requires i < |Predefined|
    ensures Matches(i, Predefined[i].question)
  {
    var lq := Lower(Predefined[i].question);
    assert OccursAt(lq, lq, 0);
  }

  /** A query with a letter k cannot be contained in the second question,
      which has none. */
  lemma NoKInResumeQuestion(q: string)
    requires 34 < |q| && q[34] == 'k'
    ensures !Contains(Lower(AskResume), Lower(q))
  {
  }

  /** Each suggestion button sends its own question, and since no earlier
      question contains it, the reply is that question's own answer. */
  lemma SuggestionGetsItsAnswer(i: nat)
    requires i < |Predefined|
    ensures !IsBlank(Predefined[i].question)
    ensures ReplyFor(Predefined[i].question) == Predefined[i].answer
  {
    var q := Predefined[i].question;
    assert !IsWhitespace(q[0]);
    SelfMatch(i);
    if i == 2 {
      assert q == AskCommunity;
      NoKInResumeQuestion(AskCommunity);
    } else if i == 3 {
      assert q == AskSecurity;
      NoKInResumeQuestion(AskSecurity);
    }
    assert IsFirstMatch(i, q);
  }

  /** User actions and timer callbacks that reach the drawer. */
  datatype Event =
    | OpenDrawer             // chat button, `onOpen`
    | CloseDrawer            // close button or overlay, `onClose`
    | Edit(text: string)     // typing in the input box
    | SendInput              // Enter key or send button, `handleSend()`
    | Suggest(index: nat)    // suggestion button, `handleSend(qa.question)`
    | TimerFires             // the oldest reply timer elapses

  function Step(s: ChatState, e: Event): (r: ChatState)
    ensures |s.messages| <= |r.messages| <= |s.messages| + 1
    ensures r.messages[..|s.messages|] == s.messages
    ensures e.Suggest? && e.index >= |Predefined| ==> r == s
    ensures e.TimerFires? && s.pending == [] ==> r == s
    ensures e.OpenDrawer? || e.CloseDrawer? || e.Edit? ==> r.messages == s.messages && r.pending == s.pending
  {
    match e
    case OpenDrawer => s.(isOpen := true)
    case CloseDrawer => s.(isOpen := false)
    case Edit(t) => s.(input := t)
    case SendInput => Send(s, s.input)
    case Suggest(i) => if i < |Predefined| then Send(s, Predefined[i].question) else s
    case TimerFires => if |s.pending| > 0 then Deliver(s) else s
  }

  function Run(s: ChatState, events: seq<Event>): ChatState
    decreases |events|
  {
    if events == [] then s else Run(Step(s, events[0]), events[1..])
  }

  function CountFrom(ms: seq<Message>, bot: bool): nat
  {
    if ms == [] then 0
    else CountFrom(ms[..|ms| - 1], bot) + (if ms[|ms| - 1].isBot == bot then 1 else 0)
  }

  /** Every user message is answered by exactly one bot message, delivered
      or still pending, the greeting comes first, and the typing indicator
      shows only while a reply is pending. */
  ghost predicate Inv(s: ChatState)
  {
    && |s.messages| >= 1
    && s.messages[0] == Message(Greeting, true, false)
    && CountFrom(s.messages, false) + 1 == CountFrom(s.messages, true) + |s.pending|
    && (s.isTyping ==> |s.pending| > 0)
  }

  lemma InitialInv()
    ensures Inv(Initial)
  {
  }

  lemma StepPreservesInv(s: ChatState, e: Event)
    requires Inv(s)
    ensures Inv(Step(s, e))
    ensures Step(s, e).messages[..|s.messages|] == s.messages
  {
  }

  /** Messages are only ever appended: whatever happens, the history so far
      stays a prefix of the list, and the invariant holds throughout. */
  lemma {:induction false} RunKeepsHistory(s: ChatState, events: seq<Event>)
    requires Inv(s)
    ensures Inv(Run(s, events))
    ensures |s.messages| <= |Run(s, events).messages|
    ensures Run(s, events).messages[..|s.messages|] == s.messages
    decreases |events|
  {
    if events != [] {
      var t := Step(s, events[0]);
      StepPreservesInv(s, events[0]);
      RunKeepsHistory(t, events[1..]);
      var u := Run(t, events[1..]);
      assert u.messages[..|s.messages|] == u.messages[..|t.messages|][..|s.messages|];
    }
  }
}
