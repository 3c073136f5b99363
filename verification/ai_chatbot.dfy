/** The career-assistant chat: its greeting, the send guard, the two-step send that
    appends the user's message and then one reply, the Enter key, and the quick
    questions. The reply is a parameter: the advice text, or `None` when the call threw.
    So are the two clock readings of a send: `now` before the call and `later` after it. */
module AIChatbot {
  import opened Types
  import opened Strings
  import opened Seqs

  datatype Message = Message(id: int, text: string, isUser: bool)

  /** The chat's state: the messages, the input box and the pending flag. */
  datatype Chat = Chat(messages: seq<Message>, input: string, loading: bool)

  const Greeting := "Hi! I'm your AI Career Assistant. I can help you with interview questions, application tips, cover letters, and career advice. What would you like to know?"
  const Apology := "I'm sorry, I'm having trouble connecting right now. Please try asking about interview questions, application tips, or career advice again."

  /** One greeting from the assistant, an empty box, nothing pending. */
  const InitialChat := Chat([Message(1, Greeting, false)], "", false)

  const QuickQuestions: seq<string> := [
    "How do I prepare for a technical interview?",
    "Write a cover letter for a software engineer position",
    "What are common behavioral interview questions?",
    "How do I negotiate salary?",
    "Tips for remote job interviews"]

  /** `!inputText.trim() || isLoading` stops a send. */
  predicate CanSend(c: Chat) {
    Trim(c.input) != "" && !c.loading
  }

  /** The first half of a send: the user's message (stamped `now`) is appended, the box
      cleared and the reply marked pending. */
  function BeginSend(c: Chat, now: int): (r: Chat)
    ensures r.messages == c.messages + [Message(now, c.input, true)]
    ensures r.input == "" && r.loading
  {
    Chat(c.messages + [Message(now, c.input, true)], "", true)
  }

  /** The second half, once the call settles and the clock reads `later`: one assistant
      message stamped `later + 1`, the reply or the apology, and the pending flag lowered.
      The box keeps whatever was typed meanwhile. */
  function FinishSend(c: Chat, later: int, reply: Option<string>): (r: Chat)
    ensures |r.messages| == |c.messages| + 1 && r.messages[..|c.messages|] == c.messages
    ensures !r.messages[|c.messages|].isUser && r.messages[|c.messages|].id == later + 1
    ensures reply.Some? ==> r.messages[|c.messages|].text == reply.value
    ensures reply.None? ==> r.messages[|c.messages|].text == Apology
    ensures !r.loading && r.input == c.input
  {
    var text := if reply.Some? then reply.value else Apology;
    Chat(c.messages + [Message(later + 1, text, false)], c.input, false)
  }

  /** `handleSendMessage`: nothing when the guard stops it, else both halves. */
  function Send(c: Chat, now: int, later: int, reply: Option<string>): (r: Chat)
    ensures !CanSend(c) ==> r == c
  {
    if !CanSend(c) then c else FinishSend(BeginSend(c, now), later, reply)
  }

  /** A send that passes the guard appends exactly the user's text and one reply (the
      apology when the call failed), clears the box and ends with nothing pending. */
  lemma SendAppendsExchange(c: Chat, now: int, later: int, reply: Option<string>)
    requires CanSend(c)
    ensures var r := Send(c, now, later, reply);
      && r.messages == c.messages + [Message(now, c.input, true),
           Message(later + 1, if reply.Some? then reply.value else Apology, false)]
      && r.input == "" && !r.loading
  {
    var answer := if reply.Some? then reply.value else Apology;
    AppendTwo(c.messages, Message(now, c.input, true), Message(later + 1, answer, false));
  }

  /** When the clock does not run backwards over the call, the reply's id is greater
      than the question's. */
  lemma ExchangeIdsIncrease(c: Chat, now: int, later: int, reply: Option<string>)
    requires CanSend(c) && now <= later
    ensures var r := Send(c, now, later, reply);
      r.messages[|c.messages|].id < r.messages[|c.messages| + 1].id
  {
    SendAppendsExchange(c, now, later, reply);
  }

  /** A blank box or a pending reply makes the send do nothing. */
  lemma BlankOrPendingIsNoOp(c: Chat, now: int, later: int, reply: Option<string>)
    requires IsBlank(c.input) || c.loading
    ensures Send(c, now, later, reply) == c
  {
  }

  /** `handleKeyPress`: Enter without Shift sends; any other key does nothing. */
  function KeyPress(c: Chat, key: string, shift: bool, now: int, later: int, reply: Option<string>): (r: Chat)
    ensures key != "Enter" || shift ==> r == c
  {
    if key == "Enter" && !shift then Send(c, now, later, reply) else c
  }

  /** Enter sends; Shift+Enter does not. */
  lemma EnterSends(c: Chat, now: int, later: int, reply: Option<string>)
    ensures KeyPress(c, "Enter", false, now, later, reply) == Send(c, now, later, reply)
    ensures KeyPress(c, "Enter", true, now, later, reply) == c
  {
  }

  /** A quick question fills the box; it does not send. */
  function AskQuick(c: Chat, question: string): (r: Chat)
    ensures r.messages == c.messages && r.loading == c.loading && r.input == question
  {
    c.(input := question)
  }

  /** The quick questions are shown while the chat holds only the greeting. */
  predicate ShowsQuickQuestions(c: Chat) {
    |c.messages| == 1
  }

  /** The messages alternate: the assistant speaks at even positions, the user at odd
      ones, and the last word is the assistant's. */
  predicate Alternating(messages: seq<Message>) {
    && |messages| % 2 == 1
    && forall k :: 0 <= k < |messages| ==> (messages[k].isUser <==> k % 2 == 1)
  }

  /** A settled chat: alternating and with nothing pending. */
  predicate Settled(c: Chat) {
    Alternating(c.messages) && !c.loading
  }

  /** The chat starts settled, with the quick questions shown. */
  lemma InitialChatIsSettled()
    ensures Settled(InitialChat) && ShowsQuickQuestions(InitialChat)
    ensures !InitialChat.messages[0].isUser && InitialChat.messages[0].text == Greeting
  {
  }

  /** A user message followed by an assistant message keeps the messages alternating. */
  lemma AlternatingAppendExchange(ms: seq<Message>, question: Message, answer: Message)
    requires Alternating(ms) && question.isUser && !answer.isUser
    ensures Alternating(ms + [question, answer])
  {
    var r := ms + [question, answer];
    forall k | 0 <= k < |r| ensures (r[k].isUser <==> k % 2 == 1) {
      if k < |ms| {
        assert r[k] == ms[k];
      } else if k == |ms| {
        assert r[k] == question;
      } else {
        assert r[k] == answer;
      }
    }
  }

  /** Every send, key press and quick question keeps a chat settled. */
  lemma SendKeepsSettled(c: Chat, now: int, later: int, reply: Option<string>)
    requires Settled(c)
    ensures Settled(Send(c, now, later, reply))
  {
    if CanSend(c) {
      var answer := if reply.Some? then reply.value else Apology;
      var r := Send(c, now, later, reply);
      SendAppendsExchange(c, now, later, reply);
      AlternatingAppendExchange(c.messages, Message(now, c.input, true), Message(later + 1, answer, false));
      assert Alternating(r.messages) && !r.loading;
    }
  }

  /** A send that passes the guard hides the quick questions for good. */
  lemma SendHidesQuickQuestions(c: Chat, now: int, later: int, reply: Option<string>)
    requires Settled(c) && CanSend(c)
    ensures !ShowsQuickQuestions(Send(c, now, later, reply))
  {
    SendAppendsExchange(c, now, later, reply);
  }

  lemma KeyPressKeepsSettled(c: Chat, key: string, shift: bool, now: int, later: int, reply: Option<string>)
    requires Settled(c)
    ensures Settled(KeyPress(c, key, shift, now, later, reply))
  {
    SendKeepsSettled(c, now, later, reply);
  }

  /** A quick question only fills the box; sending it afterwards posts its text as the
      user's message. */
  lemma QuickQuestionThenSend(c: Chat, question: string, now: int, later: int, reply: Option<string>)
    requires Settled(c) && !IsBlank(question)
    ensures Settled(AskQuick(c, question)) && CanSend(AskQuick(c, question))
    ensures Send(AskQuick(c, question), now, later, reply).messages[|c.messages|] == Message(now, question, true)
  {
  }
}
