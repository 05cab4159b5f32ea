/** The `App` component's conversation state: the transcript, the text in
    the input box and the loading flag, with the handlers that change them.
    The two `setTimeout` callbacks are explicit "fire" events over a queue of
    pending completions; message ids, which the source reads from the clock,
    are parameters of the events. */
module App {
  import opened JsString
  import opened ChatMessage

  /** Which canned reply a pending timer callback will append: the one
      `handleSend` schedules, or the one `handleQuickReply` schedules. */
  datatype Completion = SendReply | QuickReplyReply

  const GreetingContent: string :=
    "Hi there! 👋 I'm your Diskarte.ai Career Assistant. I'm here to help you with resume improvements, interview prep, job search, and career advice. How can I assist you today?"

  const ResumeAreaContent: string :=
    "Great! I can help you improve your resume. Here are some key areas we can work on:\n\n• Strengthen your professional summary\n• Optimize your work experience descriptions\n• Highlight relevant skills\n• Format for ATS (Applicant Tracking Systems)\n• Tailor it for specific job applications"

  /** The seed transcript `initialMessages`. */
  function InitialMessages(): (ms: seq<Message>)
    ensures |ms| == 3
    ensures ms[0].author == Ai && ms[1].author == User && ms[2].author == Ai
    ensures ms[0].id == "1" && ms[1].id == "2" && ms[2].id == "3"
    ensures ms[2].isList == Some(true) && ms[0].isList != Some(true) && ms[1].isList != Some(true)
    ensures ms[0].quickReplies == Some(["Improve Resume", "Practice Interview", "Find Jobs"])
    ensures ms[1].quickReplies == None && ms[1].content == "I need help with my resume"
    ensures ms[2].quickReplies == Some(["Professional Summary", "Work Experience", "Skills Section"])
  {
    [ Message("1", Ai, GreetingContent,
        Some(["Improve Resume", "Practice Interview", "Find Jobs"]), None),
      Message("2", User, "I need help with my resume", None, None),
      Message("3", Ai, ResumeAreaContent,
        Some(["Professional Summary", "Work Experience", "Skills Section"]), Some(true)) ]
  }

  /** A message the user sends: no quick replies, not a list. */
  function UserMessage(id: string, text: string): Message {
    Message(id, User, text, None, None)
  }

  const SendReplyContent: string :=
    "That's a great question! I'd be happy to help you with that. Let me provide some personalized advice based on your needs."

  const QuickReplyContent: string :=
    "Perfect! Here are some tips for that:\n\n• Focus on measurable achievements\n• Use action verbs\n• Keep it concise and relevant\n• Tailor to the job description"

  /** The assistant message a completion appends when it fires. */
  function Reply(kind: Completion, id: string): (r: Message)
    ensures r.author == Ai && r.id == id
    ensures r.isList == Some(true) <==> kind == QuickReplyReply
    ensures |Replies(r)| == 3
  {
    match kind
    case SendReply =>
      Message(id, Ai, SendReplyContent, Some(["Tell me more", "Show examples", "Next steps"]), None)
    case QuickReplyReply =>
      Message(id, Ai, QuickReplyContent, Some(["More tips", "Review my draft", "What's next?"]), Some(true))
  }

  /** One of the two canned assistant replies, whatever its id. */
  predicate IsReply(m: Message) {
    m == Reply(SendReply, m.id) || m == Reply(QuickReplyReply, m.id)
  }

  /** The send-kind reply is an assistant bubble on the left showing its
      text as one block, with three controls that send "Tell me more",
      "Show examples" and "Next steps". */
  lemma SendReplyRenders(id: string)
    ensures Render(Reply(SendReply, id)) ==
            View(Left, BotAvatar, Block(SendReplyContent),
                 [Control("Tell me more", "Tell me more"), Control("Show examples", "Show examples"),
                  Control("Next steps", "Next steps")])
  {
    ThreeControls(Reply(SendReply, id), "Tell me more", "Show examples", "Next steps");
  }

  /** The quick-reply-kind reply is an assistant bubble on the left whose
      content is rendered as a list, with three controls that send "More
      tips", "Review my draft" and "What's next?". */
  lemma QuickReplyReplyRenders(id: string)
    ensures var v := Render(Reply(QuickReplyReply, id));
            && v.side == Left && v.avatar == BotAvatar
            && v.body == ListBody(RenderList(QuickReplyContent))
            && v.controls == [Control("More tips", "More tips"), Control("Review my draft", "Review my draft"),
                              Control("What's next?", "What's next?")]
  {
    ThreeControls(Reply(QuickReplyReply, id), "More tips", "Review my draft", "What's next?");
  }

  /** Number of messages in `ms` written by `a`. */
  function CountBy(ms: seq<Message>, a: Author): nat {
    if ms == [] then 0
    else CountBy(ms[..|ms| - 1], a) + (if ms[|ms| - 1].author == a then 1 else 0)
  }

  /** Appending a message adds one to its author's count and nothing to the
      other author's. */
  lemma CountByAppend(ms: seq<Message>, m: Message, a: Author)
    ensures CountBy(ms + [m], a) == CountBy(ms, a) + (if m.author == a then 1 else 0)
  {
    assert (ms + [m])[..|ms|] == ms;
  }

  /** Appending to a transcript that holds the seed keeps the seed and
      extends what follows it. */
  lemma AppendAfterSeed(ms: seq<Message>, m: Message)
    requires |ms| >= 3
    ensures (ms + [m])[..3] == ms[..3]
    ensures (ms + [m])[3..] == ms[3..] + [m]
  {
  }

  /** What every reachable state satisfies: the seed is still there; loading
      implies a reply is still pending (the converse fails once two replies
      overlap, since the first one to fire clears the single flag); every
      user turn after the seed has been answered or is still pending; and
      every assistant message after the seed is one of the canned replies. */
  ghost predicate Invariant(ms: seq<Message>, loading: bool, pending: seq<Completion>) {
    && |ms| >= 3 && ms[..3] == InitialMessages()
    && (loading ==> pending != [])
    && CountBy(ms[3..], User) == CountBy(ms[3..], Ai) + |pending|
    && forall j :: 3 <= j < |ms| && ms[j].author == Ai ==> IsReply(ms[j])
  }

  /** The state the component starts in satisfies the invariant. */
  lemma InitialInvariant()
    ensures Invariant(InitialMessages(), false, [])
  {
    assert InitialMessages()[3..] == [];
  }

  /** A user turn (typed or a quick reply) appends one user message, sets the
      flag and schedules one reply: the invariant is kept. */
  lemma {:induction false} UserTurnKeepsInvariant(
      ms: seq<Message>, loading: bool, pending: seq<Completion>, m: Message, kind: Completion)
    requires Invariant(ms, loading, pending) && m.author == User
    ensures Invariant(ms + [m], true, pending + [kind])
  {
    AppendAfterSeed(ms, m);
    CountByAppend(ms[3..], m, User);
    CountByAppend(ms[3..], m, Ai);
  }

  /** The oldest pending reply fires: the invariant is kept, with the flag
      cleared whether or not another reply is still pending. */
  lemma {:induction false} ReplyKeepsInvariant(
      ms: seq<Message>, loading: bool, pending: seq<Completion>, id: string)
    requires Invariant(ms, loading, pending) && pending != []
    ensures Invariant(ms + [Reply(pending[0], id)], false, pending[1..])
  {
    var m := Reply(pending[0], id);
    AppendAfterSeed(ms, m);
    CountByAppend(ms[3..], m, User);
    CountByAppend(ms[3..], m, Ai);
    assert IsReply(m) by {
      if pending[0] == SendReply { assert m == Reply(SendReply, m.id); }
    }
  }

  /** `e.key === 'Enter' && !e.shiftKey`. */
  predicate IsSubmitKey(key: string, shift: bool) {
    key == "Enter" && !shift
  }

  class Conversation {
    var messages: seq<Message>
    var inputValue: string
    var isLoading: bool
    /** The timer callbacks scheduled and not yet run, oldest first. Both
        use the same delay, so they run in the order they were scheduled. */
    var pending: seq<Completion>

    ghost predicate Valid()
      reads this
    {
      Invariant(messages, isLoading, pending)
    }

    /** The three `useState` initialisers. */
    constructor ()
      ensures Valid()
      ensures messages == InitialMessages() && inputValue == "" && !isLoading && pending == []
    {
      InitialInvariant();
      messages := InitialMessages();
      inputValue := "";
      isLoading := false;
      pending := [];
    }

    /** The input box's `onChange`: the box now holds `value`. */
    method Type(value: string)
      requires Valid()
      modifies this
      ensures Valid()
      ensures inputValue == value
      ensures messages == old(messages) && isLoading == old(isLoading) && pending == old(pending)
    {
      inputValue := value;
    }

    /** The send button's `disabled` attribute: set exactly when the input is
        empty or all whitespace, which is exactly when `Send` does nothing. */
    function SendDisabled(): (disabled: bool)
      reads this
      ensures disabled <==> Blank(inputValue)
    {
      Trim(inputValue) == ""
    }

    /** `handleSend`: ignored when the trimmed input is empty; otherwise the
        untrimmed input becomes a user message, the box is cleared, the flag
        is set and one send-kind reply is scheduled. */
    method Send(id: string)
      requires Valid()
      modifies this
      ensures Valid()
      ensures Blank(old(inputValue)) ==>
                messages == old(messages) && inputValue == old(inputValue) &&
                isLoading == old(isLoading) && pending == old(pending)
      ensures !Blank(old(inputValue)) ==>
                messages == old(messages) + [UserMessage(id, old(inputValue))] &&
                inputValue == "" && isLoading && pending == old(pending) + [SendReply]
    {
      if Trim(inputValue) == "" {
        return;
      }
      UserTurnKeepsInvariant(messages, isLoading, pending, UserMessage(id, inputValue), SendReply);
      messages := messages + [UserMessage(id, inputValue)];
      inputValue := "";
      isLoading := true;
      pending := pending + [SendReply];
    }

    /** `handleQuickReply(reply)`: the reply becomes a user message with no
        emptiness check, the flag is set and one quick-reply-kind reply is
        scheduled; the input box is left as it is. */
    method QuickReply(reply: string, id: string)
      requires Valid()
      modifies this
      ensures Valid()
      ensures messages == old(messages) + [UserMessage(id, reply)]
      ensures inputValue == old(inputValue) && isLoading && pending == old(pending) + [QuickReplyReply]
    {
      UserTurnKeepsInvariant(messages, isLoading, pending, UserMessage(id, reply), QuickReplyReply);
      messages := messages + [UserMessage(id, reply)];
      isLoading := true;
      pending := pending + [QuickReplyReply];
    }

    /** The oldest pending timer callback runs: it appends its canned reply
        and clears the flag, even if another reply is still pending. */
    method Fire(id: string)
      requires Valid() && pending != []
      modifies this
      ensures Valid()
      ensures messages == old(messages) + [Reply(old(pending[0]), id)]
      ensures !isLoading && inputValue == old(inputValue) && pending == old(pending[1..])
    {
      ReplyKeepsInvariant(messages, isLoading, pending, id);
      messages := messages + [Reply(pending[0], id)];
      isLoading := false;
      pending := pending[1..];
    }

    /** `handleKeyPress`: Enter without Shift is `Send`; any other key, or
        Enter with Shift, changes nothing. */
    method KeyPress(key: string, shift: bool, id: string)
      requires Valid()
      modifies this
      ensures Valid()
      ensures !(IsSubmitKey(key, shift) && !Blank(old(inputValue))) ==>
                messages == old(messages) && inputValue == old(inputValue) &&
                isLoading == old(isLoading) && pending == old(pending)
      ensures IsSubmitKey(key, shift) && !Blank(old(inputValue)) ==>
                messages == old(messages) + [UserMessage(id, old(inputValue))] &&
                inputValue == "" && isLoading && pending == old(pending) + [SendReply]
    {
      if key == "Enter" && !shift {
        Send(id);
      }
    }

    /** Clicking quick-reply control `i` of the rendered message `k`: the
        control hands its reply to `handleQuickReply`. */
    method ClickControl(k: nat, i: nat, id: string)
      requires Valid() && k < |messages| && i < |Replies(messages[k])|
      modifies this
      ensures Valid()
      ensures messages == old(messages) + [UserMessage(id, Replies(old(messages)[k])[i])]
      ensures inputValue == old(inputValue) && isLoading && pending == old(pending) + [QuickReplyReply]
    {
      ActivateSendsReply(messages[k], i);
      var reply := Activate(Render(messages[k]), i).value;
      QuickReply(reply, id);
    }
  }

  /** Submitting text, then letting the reply arrive. */
  method CoverLetterScenario() {
    var c := new Conversation();
    c.Type("I need a cover letter");
    assert !IsWhitespace(c.inputValue[0]);
    c.Send("t1");
    assert |c.messages| == 4 && c.messages[3].author == User;
    assert c.messages[3].content == "I need a cover letter" && c.isLoading;
    c.Fire("t2");
    assert |c.messages| == 5 && c.messages[4].author == Ai && !c.isLoading;
  }

  /** Submitting only spaces is ignored. */
  method BlankScenario() {
    var c := new Conversation();
    c.Type("   ");
    assert Blank(c.inputValue);
    c.Send("t1");
    assert |c.messages| == 3 && !c.isLoading && c.pending == [];
  }

  /** Two sends before the first reply arrives: the first reply clears the
      flag while the second is still pending. */
  method DoubleSubmitScenario() {
    var c := new Conversation();
    c.Type("a");
    assert !IsWhitespace(c.inputValue[0]);
    c.Send("t1");
    c.Type("b");
    assert !IsWhitespace(c.inputValue[0]);
    c.Send("t2");
    assert c.pending == [SendReply, SendReply];
    c.Fire("t3");
    assert !c.isLoading && c.pending == [SendReply] && |c.messages| == 6;
  }
}
