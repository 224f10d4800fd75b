/**
 * The stand-alone chat panel (ghost-ui/src/components/RagChat.tsx): one
 * question and one answer per send. The answering service is an input, in
 * one of the three shapes the handler distinguishes. The panel's message
 * record has no error flag, so its bubbles leave `error` absent.
 */
module RagChat {

  import opened Wrappers
  import opened Js
  import opened PaletteModel

  /** What the query service did: answered with a non-ok HTTP status,
      answered normally, or failed (network failure or an unreadable
      body) with a message. */
  datatype RagOutcome =
    | NotOk
    | Ok(answer: string, source: string, hallucinated: bool)
    | NetworkError(message: string)

  const FallbackText := "Sorry, something went wrong."
  const FallbackSource := "llm_fallback"
  const NetworkErrorPrefix := "Network error: "

  /** The bot bubble for an outcome. */
  function RagReply(outcome: RagOutcome): (m: ChatMessage)
    ensures m.sender == Bot && m.error.None?
    ensures outcome.NotOk? ==>
              m.text == FallbackText && m.hallucinated == Some(true) && m.source == Some(FallbackSource)
    ensures outcome.Ok? ==>
              m.text == outcome.answer && m.hallucinated == Some(outcome.hallucinated)
              && m.source == Some(outcome.source)
    ensures outcome.NetworkError? ==>
              m.text == NetworkErrorPrefix + outcome.message && m.hallucinated.None? && m.source.None?
  {
    match outcome
    case NotOk => ChatMessage(Bot, FallbackText, Some(true), Some(FallbackSource), None)
    case Ok(answer, source, hallucinated) => ChatMessage(Bot, answer, Some(hallucinated), Some(source), None)
    case NetworkError(message) => ChatMessage(Bot, NetworkErrorPrefix + message, None, None, None)
  }

  /** `sendMessage` run to completion. The user bubble and the question
      carry the input as typed, untrimmed. */
  function RagSend(c: ChatState, outcome: RagOutcome): ChatState {
    if Trim(c.input) == "" then c
    else ChatState(c.messages + [ChatMessage(User, c.input, None, None, None), RagReply(outcome)], "", false)
  }

  /** `handleKeyDown`: Enter without Shift sends. */
  function RagKeyDown(c: ChatState, key: string, shiftKey: bool, outcome: RagOutcome): ChatState {
    if key == "Enter" && !shiftKey then RagSend(c, outcome) else c
  }

  /** A whitespace-only input changes nothing; otherwise the input as typed
      becomes one user bubble, exactly one bot bubble follows it, earlier
      bubbles are untouched, loading is over and the input is cleared. */
  lemma RagSendTurn(c: ChatState, o: RagOutcome)
    ensures (forall i :: 0 <= i < |c.input| ==> IsWhiteSpace(c.input[i])) ==> RagSend(c, o) == c
    ensures Trim(c.input) != "" ==>
              var t := RagSend(c, o);
              && |t.messages| == |c.messages| + 2
              && t.messages[..|c.messages|] == c.messages
              && t.messages[|c.messages|] == ChatMessage(User, c.input, None, None, None)
              && t.messages[|c.messages| + 1] == RagReply(o)
              && !t.loading && t.input == ""
  {
    TrimEmptyIff(c.input);
  }

  datatype RagEvent = Typed(text: string) | Sent(outcome: RagOutcome) | KeyPressed(key: string, shiftKey: bool, outcome: RagOutcome)

  function RagStep(c: ChatState, ev: RagEvent): ChatState {
    match ev
    case Typed(text) => c.(input := text)
    case Sent(o) => RagSend(c, o)
    case KeyPressed(key, shiftKey, o) => RagKeyDown(c, key, shiftKey, o)
  }

  function RagRun(c: ChatState, evs: seq<RagEvent>): ChatState
    decreases |evs|
  {
    if evs == [] then c else RagRun(RagStep(c, evs[0]), evs[1..])
  }

  /** Over any sequence of typing, clicks and key presses, earlier bubbles
      are never altered and bubbles alternate user, bot. */
  lemma {:induction false} RagRunPaired(c: ChatState, evs: seq<RagEvent>)
    requires Paired(c.messages)
    ensures Paired(RagRun(c, evs).messages)
    ensures c.messages <= RagRun(c, evs).messages
    decreases |evs|
  {
    if evs != [] {
      var next := RagStep(c, evs[0]);
      if !evs[0].Typed? && next.messages != c.messages {
        PairedAppend(c.messages, ChatMessage(User, c.input, None, None, None), RagReply(evs[0].outcome));
      }
      RagRunPaired(next, evs[1..]);
    }
  }

  /** The panel. */
  class ChatPanel {
    var messages: seq<ChatMessage>
    var input: string
    var loading: bool

    ghost function State(): ChatState
      reads this
    {
      ChatState(messages, input, loading)
    }

    constructor ()
      ensures State() == InitialChat
    {
      messages, input, loading := [], "", false;
    }

    method SetInput(text: string)
      modifies this
      ensures State() == RagStep(old(State()), Typed(text))
    {
      input := text;
    }

    /** `sendMessage`; `question` is what was posted to the service, if
        anything. */
    method SendMessage(outcome: RagOutcome) returns (question: Option<string>)
      modifies this
      ensures State() == RagSend(old(State()), outcome)
      ensures question == if Trim(old(input)) == "" then None else Some(old(input))
    {
      if Trim(input) == "" {
        return None;
      }
      ghost var start := State();
      var typed, before := input, messages;
      var userMessage := ChatMessage(User, typed, None, None, None);
      var reply := RagReply(outcome);
      messages := messages + [userMessage];
      loading := true;
      question := Some(typed);
      messages := messages + [reply];
      loading := false;
      input := "";
      assert messages == before + [userMessage, reply];
      assert RagSend(start, outcome) == ChatState(before + [userMessage, reply], "", false);
    }

    method HandleKeyDown(key: string, shiftKey: bool, outcome: RagOutcome) returns (question: Option<string>)
      modifies this
      ensures State() == RagKeyDown(old(State()), key, shiftKey, outcome)
    {
      question := None;
      if key == "Enter" && !shiftKey {
        question := SendMessage(outcome);
      }
    }
  }
}
