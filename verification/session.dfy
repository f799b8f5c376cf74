/** The per-browser session of `app.py`: logging in and out, and the chat tab,
    which routes each prompt to the debugging path or the retrieval path and
    logs the exchange.

    The session holds the three values the application keeps in Streamlit's
    session state. The clock reading that makes the user id unique is an
    input. */
module Session {
  import opened Outcomes
  import opened PyText
  import opened Board
  import opened Rag

  datatype Role = User | Assistant

  /** An entry of the chat log. */
  datatype Message = Message(role: Role, content: string)

  const Greeting: string := "Hello! How can I assist you with Camos today?"
  const NoPipelineReply: string := "The AI is not ready yet. Please try again after the system is fully initialized."
  const ApologyReply: string :=
    "I apologize, an error occurred while processing your request. Please try again or check the server status."

  /** The fixed arguments the chat passes to `debug_code`; the prompt itself is
      not passed. */
  const CodeSnippetPlaceholder: string := "Please provide the code snippet you're working with."
  const ErrorMessagePlaceholder: string := "Please provide the exact error message."

  // ---------------------------------------------------------------------------
  // Routing
  // ---------------------------------------------------------------------------

  /** The prompt, lower-cased, mentions both "error" and "code". */
  function IsDebugPrompt(prompt: string): (b: bool)
    ensures b ==> |prompt| >= |"error"|
  {
    Contains(Lower(prompt), "error") && Contains(Lower(prompt), "code")
  }

  /** The assistant's reply to a prompt, with the calls made to produce it:
      without a pipeline a fixed reply; a debugging prompt goes to
      `debug_code`, whose exception becomes an apology; any other prompt goes
      to `query_rag`. */
  function ChatReply(prompt: string, pipeline: Option<Pipeline>): (r: Reply)
    ensures pipeline.None? ==> r == Reply(NoPipelineReply, [])
    ensures |r.calls| <= 1
    ensures pipeline.Some? && IsDebugPrompt(prompt) ==> forall c :: c in r.calls ==> c.LlmCall?
    ensures pipeline.Some? && !IsDebugPrompt(prompt) ==>
              r.calls == (match pipeline.value.qaChain
                          case None => []
                          case Some(chain) => [ChainCall(chain, prompt)])
    ensures pipeline.Some? && !IsDebugPrompt(prompt) ==> r == pipeline.value.QueryRag(prompt)
    ensures pipeline.Some? && IsDebugPrompt(prompt) ==>
              r == (match pipeline.value.DebugCode(CodeSnippetPlaceholder, ErrorMessagePlaceholder)
                    case Ok(reply) => reply
                    case Raised(_) => Reply(ApologyReply, []))
  {
    match pipeline
    case None => Reply(NoPipelineReply, [])
    case Some(p) =>
      if IsDebugPrompt(prompt) then
        match p.DebugCode(CodeSnippetPlaceholder, ErrorMessagePlaceholder)
        case Ok(reply) => reply
        case Raised(_) => Reply(ApologyReply, [])
      else p.QueryRag(prompt)
  }

  /** The routing test is a pair of substring tests: the lower-cased prompt
      contains "error" somewhere and "code" somewhere. */
  lemma DebugPromptIff(prompt: string)
    ensures IsDebugPrompt(prompt) <==>
              (exists i: nat :: OccursAt(Lower(prompt), "error", i))
              && (exists j: nat :: OccursAt(Lower(prompt), "code", j))
  {
    ContainsIff(Lower(prompt), "error");
    ContainsIff(Lower(prompt), "code");
  }

  /** The routing ignores case. */
  lemma DebugPromptIgnoresCase(prompt: string)
    ensures IsDebugPrompt(Lower(prompt)) == IsDebugPrompt(prompt)
  {
    LowerIdempotent(prompt);
  }

  /** A debugging prompt stays one whatever text surrounds it. */
  lemma DebugPromptExtended(pre: string, prompt: string, post: string)
    requires IsDebugPrompt(prompt)
    ensures IsDebugPrompt(pre + prompt + post)
  {
    LowerConcat(pre, prompt);
    LowerConcat(pre + prompt, post);
    ContainsExtend(Lower(pre), Lower(prompt), Lower(post), "error");
    ContainsExtend(Lower(pre), Lower(prompt), Lower(post), "code");
  }

  /** Every debugging prompt gets the same reply: only the fixed placeholders
      reach the model, never the prompt. */
  lemma DebugReplyIgnoresPrompt(p1: string, p2: string, pipeline: Option<Pipeline>)
    requires IsDebugPrompt(p1) && IsDebugPrompt(p2)
    ensures ChatReply(p1, pipeline) == ChatReply(p2, pipeline)
  {
  }

  /** With a pipeline that has no chain, any other prompt gets the not-ready
      message and reaches no component. */
  lemma NotReadyChatReply(prompt: string, pipeline: Option<Pipeline>)
    requires pipeline.Some? && pipeline.value.qaChain.None? && !IsDebugPrompt(prompt)
    ensures ChatReply(prompt, pipeline) == Reply(NotReadyMessage, [])
  {
  }

  // ---------------------------------------------------------------------------
  // The session
  // ---------------------------------------------------------------------------

  /** The log the chat tab shows before a prompt is handled: the stored one,
      or the greeting when there is none yet. */
  function LogBefore(messages: Option<seq<Message>>): (r: seq<Message>)
    ensures messages.None? ==> r == [Message(Assistant, Greeting)]
    ensures messages.Some? ==> r == messages.value
  {
    match messages
    case None => [Message(Assistant, Greeting)]
    case Some(log) => log
  }

  class ChatSession {
    var loggedIn: bool
    /** `None` stands for the empty dictionary of a session without a user. */
    var userData: Option<UserData>
    /** `None` until the chat tab is first shown. */
    var messages: Option<seq<Message>>

    /** A new session: nobody is logged in and there is no chat log. */
    constructor()
      ensures !loggedIn && userData.None? && messages.None?
    {
      loggedIn := false;
      userData := None;
      messages := None;
    }

    /** The login form. Name and email are required; the user id is the email
        followed by the clock reading. A refused login changes nothing. */
    method Login(name: string, email: string, experienceLevel: string, nanos: nat)
      returns (notice: Notice)
      requires experienceLevel in ExperienceLevels
      modifies this
      ensures messages == old(messages)
      ensures name != [] && email != [] ==>
                && loggedIn
                && userData == Some(UserData(name, email, experienceLevel, email + "_" + NatToString(nanos)))
                && notice == Success("Welcome, " + name + "! You are now logged in.")
      ensures !(name != [] && email != []) ==>
                && loggedIn == old(loggedIn) && userData == old(userData)
                && notice == Error("Name and Email ID are required.")
    {
      if name != [] && email != [] {
        loggedIn := true;
        userData := Some(UserData(name, email, experienceLevel, email + "_" + NatToString(nanos)));
        notice := Success("Welcome, " + name + "! You are now logged in.");
      } else {
        notice := Error("Name and Email ID are required.");
      }
    }

    /** The logout button clears the session, which then starts again without
        a user and without a chat log. */
    method Logout()
      modifies this
      ensures !loggedIn && userData.None? && messages.None?
    {
      loggedIn := false;
      userData := None;
      messages := None;
    }

    /** The chat tab: the log is created with the greeting if needed; a
        non-empty prompt then adds the user's message and one reply. */
    method HandleChatInput(prompt: string, pipeline: Option<Pipeline>)
      modifies this
      ensures loggedIn == old(loggedIn) && userData == old(userData)
      ensures prompt == [] ==> messages == Some(LogBefore(old(messages)))
      ensures prompt != [] ==>
                messages == Some(LogBefore(old(messages))
                                 + [Message(User, prompt), Message(Assistant, ChatReply(prompt, pipeline).text)])
    {
      if messages.None? {
        messages := Some([Message(Assistant, Greeting)]);
      }
      if prompt != [] {
        var log := messages.value;
        messages := Some(log + [Message(User, prompt)]);
        var response := ChatReply(prompt, pipeline).text;
        messages := Some(messages.value + [Message(Assistant, response)]);
        assert messages.value == log + [Message(User, prompt), Message(Assistant, response)];
      }
    }
  }
}
