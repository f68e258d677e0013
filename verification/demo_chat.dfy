/**
  The demo chat widget (src/components/shared/ChatBot.jsx), which the app
  does not mount: a launcher that toggles a small panel, a message list and
  an input form. Every non-blank submit schedules the same canned reply one
  second later; the timer becomes an explicit `Deliver` step.
 */
module DemoChat {
  import opened JsText

  datatype Sender = User | Bot

  datatype Message = Message(text: string, sender: Sender)

  const DemoReply: string := "Thanks for your message! I'm a demo chatbot."

  /** `pending` counts the reply timers that have not fired yet. */
  datatype DemoState = DemoState(isOpen: bool, messages: seq<Message>, input: string, pending: nat)

  const Initial: DemoState := DemoState(false, [], "", 0)

  /** `handleSubmit`: the form's submit handler. */
  function Submit(s: DemoState): (r: DemoState)
    ensures IsBlank(s.input) ==> r == s
    ensures !IsBlank(s.input) ==>
      && r.messages == s.messages + [Message(s.input, User)]
      && r.input == []
      && r.pending == s.pending + 1
      && r.isOpen == s.isOpen
  {
    TrimEmptyIffBlank(s.input);
    if Trim(s.input) == [] then s
    else s.(messages := s.messages + [Message(s.input, User)], input := "", pending := s.pending + 1)
  }

  /** A reply timer fires: the canned reply is appended, whatever was said. */
  function Deliver(s: DemoState): (r: DemoState)
    requires s.pending > 0
    ensures |r.messages| == |s.messages| + 1
    ensures r.messages[..|s.messages|] == s.messages
    ensures r.messages[|s.messages|] == Message(DemoReply, Bot)
    ensures r.pending + 1 == s.pending
    ensures r.isOpen == s.isOpen && r.input == s.input
  {
    s.(messages := s.messages + [Message(DemoReply, Bot)], pending := s.pending - 1)
  }

  /** The launcher button: `setIsOpen(!isOpen)`. */
  function Toggle(s: DemoState): (r: DemoState)
    ensures r.isOpen != s.isOpen
    ensures r.(isOpen := s.isOpen) == s
  {
    s.(isOpen := !s.isOpen)
  }

  /** The close button in the panel header: `setIsOpen(false)`. */
  function Close(s: DemoState): (r: DemoState)
    ensures !r.isOpen
    ensures r.(isOpen := s.isOpen) == s
  {
    s.(isOpen := false)
  }

  datatype Event = Launcher | CloseButton | Edit(text: string) | SubmitForm | TimerFires

  function Step(s: DemoState, e: Event): (r: DemoState)
    ensures |s.messages| <= |r.messages| <= |s.messages| + 1
    ensures r.messages[..|s.messages|] == s.messages
    ensures e.TimerFires? && s.pending == 0 ==> r == s
    ensures e.Launcher? ==> r.isOpen != s.isOpen
    ensures e.CloseButton? ==> !r.isOpen
    ensures e.Launcher? || e.CloseButton? || e.Edit? ==> r.messages == s.messages && r.pending == s.pending
  {
    match e
    case Launcher => Toggle(s)
    case CloseButton => Close(s)
    case Edit(t) => s.(input := t)
    case SubmitForm => Submit(s)
    case TimerFires => if s.pending > 0 then Deliver(s) else s
  }

  function Run(s: DemoState, events: seq<Event>): DemoState
    decreases |events|
  {
    if events == [] then s else Run(Step(s, events[0]), events[1..])
  }

  function CountSender(ms: seq<Message>, who: Sender): nat
  {
    if ms == [] then 0
    else CountSender(ms[..|ms| - 1], who) + (if ms[|ms| - 1].sender == who then 1 else 0)
  }

  /** Each user message is followed, eventually, by exactly one bot reply:
      replies shown plus replies pending equal the messages sent. */
  ghost predicate Balanced(s: DemoState)
  {
    CountSender(s.messages, User) == CountSender(s.messages, Bot) + s.pending
  }

  lemma StepKeepsBalance(s: DemoState, e: Event)
    requires Balanced(s)
    ensures Balanced(Step(s, e))
    ensures |s.messages| <= |Step(s, e).messages|
    ensures Step(s, e).messages[..|s.messages|] == s.messages
  {
  }

  /** Messages are only ever appended, never removed or edited, and the
      balance between sent messages and replies holds after any events. */
  lemma {:induction false} RunOnlyAppends(s: DemoState, events: seq<Event>)
    requires Balanced(s)
    ensures Balanced(Run(s, events))
    ensures |s.messages| <= |Run(s, events).messages|
    ensures Run(s, events).messages[..|s.messages|] == s.messages
    decreases |events|
  {
    if events != [] {
      var t := Step(s, events[0]);
      StepKeepsBalance(s, events[0]);
      RunOnlyAppends(t, events[1..]);
      var u := Run(t, events[1..]);
      assert u.messages[..|s.messages|] == u.messages[..|t.messages|][..|s.messages|];
    }
  }
}
