/** Message handling: the easter-egg short cut, then the two-tier choice
    between the fast secondary backend (Groq) and the primary backend
    (Gemini), with fallback to Gemini and a fixed apology as last resort.
    The backends are oracles: functions from the request they receive to
    the outcome of the call. Each method returns the calls it made. */
module Router {
  import opened PyStr
  import opened EasterEggs
  import opened Classifier

  /** What one backend call yields: the generated text, or a failure of any
      kind (network, quota, timeout, malformed response, missing text). */
  datatype Outcome = Success(text: string) | Failure

  /** One outbound backend call, with the request it carried. Groq gets a
      chat with a system message and the user's message; Gemini gets one
      combined prompt. */
  datatype Call =
    | GroqCall(system: string, user: string)
    | GeminiCall(prompt: string)

  /** The configuration fixed at start-up: the persona preamble, the
      platform knowledge text (empty when the file is missing), whether a
      Groq client exists, the administrator id (0 when unset) and the
      easter-egg table. */
  datatype Config = Config(
    persona: string,
    knowledge: string,
    groqConfigured: bool,
    adminId: int,
    eggs: seq<TriggerGroup>)

  /** The reply after an AI failure that nothing else could answer. */
  function Apology(): (a: string)
    ensures a != []
  {
    "عذراً، حصل خطأ تقني بسيط. " +
    "جرب تاني أو تواصل مع الدعم الفني! 🔧"
  }

  /** The system message sent to Groq: persona, a blank line, knowledge. */
  function GroqSystem(cfg: Config): string {
    cfg.persona + "\n\n" + cfg.knowledge
  }

  /** The single prompt sent to Gemini: persona, knowledge under a heading,
      the student's question, and the answer cue. */
  function GeminiPrompt(cfg: Config, message: string): string {
    cfg.persona + "\n\nمعلومات المنصة:\n" + cfg.knowledge
    + "\n\nسؤال الطالب: " + message + "\n\nالرد:"
  }

  /** What the backend behind call `c` answers. */
  function OutcomeOf(groq: (string, string) -> Outcome, gemini: string -> Outcome, c: Call): Outcome {
    match c
    case GroqCall(system, user) => groq(system, user)
    case GeminiCall(prompt) => gemini(prompt)
  }

  /** The reply made from the outcome of the last call: the generated text
      with surrounding whitespace stripped, or the fixed apology. */
  function Answer(o: Outcome): string {
    match o
    case Success(text) => Strip(text)
    case Failure => Apology()
  }

  /** The routing policy of `get_ai_response`, stated on its call trace. */
  ghost predicate FollowsPolicy(cfg: Config, groq: (string, string) -> Outcome, gemini: string -> Outcome,
                                message: string, useGroq: bool, reply: string, trace: seq<Call>)
  {
    // one or two backend calls, never more
    1 <= |trace| <= 2
    // Groq is tried exactly when the message was judged simple and a
    // Groq client exists; when tried, it is the first call
    && (trace[0].GroqCall? <==> useGroq && cfg.groqConfigured)
    && (forall i :: 0 <= i < |trace| && trace[i].GroqCall? ==>
          i == 0 && trace[i] == GroqCall(GroqSystem(cfg), message))
    // Gemini is called at most once, as the last call, with the full prompt
    && (forall i :: 0 <= i < |trace| && trace[i].GeminiCall? ==>
          i == |trace| - 1 && trace[i] == GeminiCall(GeminiPrompt(cfg, message)))
    // Gemini is called exactly when Groq was not tried or failed
    && (trace[|trace| - 1].GeminiCall? <==>
          !trace[0].GroqCall? || groq(GroqSystem(cfg), message).Failure?)
    // the reply comes from the last call
    && reply == Answer(OutcomeOf(groq, gemini, trace[|trace| - 1]))
  }

  /** `get_ai_response`: try Groq when asked to and configured, fall back to
      Gemini on any Groq failure, and answer with the apology when Gemini
      fails too. Nothing escapes as an exception. */
  method GetAiResponse(cfg: Config, groq: (string, string) -> Outcome, gemini: string -> Outcome,
                       message: string, useGroq: bool)
    returns (reply: string, trace: seq<Call>)
    ensures FollowsPolicy(cfg, groq, gemini, message, useGroq, reply, trace)
  {
    var system, prompt := GroqSystem(cfg), GeminiPrompt(cfg, message);
    trace := [];
    if useGroq && cfg.groqConfigured {
      trace := [GroqCall(system, message)];
      var fast := groq(system, message);
      if fast.Success? {
        reply := Strip(fast.text);
        assert OutcomeOf(groq, gemini, trace[0]) == fast;
        return;
      }
    }
    trace := trace + [GeminiCall(prompt)];
    var main := gemini(prompt);
    assert OutcomeOf(groq, gemini, trace[|trace| - 1]) == main;
    if main.Success? {
      reply := Strip(main.text);
    } else {
      reply := Apology();
    }
  }

  /** The policy pins down the calls and the reply in each of its three
      cases: Groq not tried, Groq succeeded, Groq failed. */
  lemma PolicyCases(cfg: Config, groq: (string, string) -> Outcome, gemini: string -> Outcome,
                    message: string, useGroq: bool, reply: string, trace: seq<Call>)
    requires FollowsPolicy(cfg, groq, gemini, message, useGroq, reply, trace)
    ensures var fast := groq(GroqSystem(cfg), message);
            var main := gemini(GeminiPrompt(cfg, message));
            if !(useGroq && cfg.groqConfigured) then
              trace == [GeminiCall(GeminiPrompt(cfg, message))] && reply == Answer(main)
            else if fast.Success? then
              trace == [GroqCall(GroqSystem(cfg), message)] && reply == Strip(fast.text)
            else
              trace == [GroqCall(GroqSystem(cfg), message), GeminiCall(GeminiPrompt(cfg, message))]
              && reply == Answer(main)
  {
  }

  /** Scenario: Groq is configured and tried but fails; Gemini fails too.
      The user gets the fixed apology after exactly two calls. */
  lemma BothFailApology(cfg: Config, groq: (string, string) -> Outcome, gemini: string -> Outcome,
                        message: string, reply: string, trace: seq<Call>)
    requires cfg.groqConfigured
    requires groq(GroqSystem(cfg), message).Failure? && gemini(GeminiPrompt(cfg, message)).Failure?
    requires FollowsPolicy(cfg, groq, gemini, message, true, reply, trace)
    ensures |trace| == 2 && reply == Apology()
  {
  }

  /** A backend that answers only whitespace makes the router reply with the
      empty string: the router does not guarantee a non-empty reply. */
  lemma BlankAnswerIsEmpty(text: string)
    requires forall i :: 0 <= i < |text| ==> IsSpace(text[i])
    ensures Answer(Success(text)) == []
  {
    StripBlank(text);
  }

  /** `handle_message` from the easter-egg check to the AI reply. A truthy
      easter-egg reply is sent as is; otherwise the message is classified
      and routed. */
  method HandleMessage(cfg: Config, lower: string -> string, groq: (string, string) -> Outcome,
                       gemini: string -> Outcome, message: string)
    returns (reply: string, trace: seq<Call>)
    requires WellFormed(cfg.eggs)
    ensures |trace| <= 2
    ensures var egg := FirstMatch(cfg.eggs, Normalize(lower, message));
            egg.Some? ==> trace == [] && reply in cfg.eggs[egg.value].responses
    ensures FirstMatch(cfg.eggs, Normalize(lower, message)).None? ==>
            FollowsPolicy(cfg, groq, gemini, message, IsSimpleQuestion(lower, message), reply, trace)
  {
    var egg := CheckEasterEgg(cfg.eggs, lower, message);
    if egg.Some? && egg.value != "" {
      return egg.value, [];
    }
    // With a well-formed table every reply is a non-empty string, so a
    // matched easter egg always takes the branch above.
    var useGroq := IsSimpleQuestion(lower, message);
    reply, trace := GetAiResponse(cfg, groq, gemini, message, useGroq);
  }

  /** A message whose lower-cased text says thanks never reaches a backend:
      an easter egg always fires for it, and the reply is picked from the
      pool of the first group that fires. */
  method ThanksNeverReachesBackend(cfg: Config, lower: string -> string, groq: (string, string) -> Outcome,
                                   gemini: string -> Outcome, message: string)
    returns (reply: string, trace: seq<Call>)
    requires WellFormed(cfg.eggs) && HasBotTriggers(cfg.eggs)
    requires Contains(lower(message), "شكرا") || Contains(lower(message), "thanks")
    ensures trace == []
    ensures FirstMatch(cfg.eggs, Normalize(lower, message)).Some?
    ensures reply in cfg.eggs[FirstMatch(cfg.eggs, Normalize(lower, message)).value].responses
  {
    ThanksFires(cfg.eggs, lower, message);
    reply, trace := HandleMessage(cfg, lower, groq, gemini, message);
  }
}
