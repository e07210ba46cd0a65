/** `is_simple_question`: the heuristic that decides whether the fast
    secondary backend (Groq) may answer a message. */
module Classifier {
  import opened PyStr

  /** Length threshold: any message shorter than this is simple. */
  const ShortMessage: nat := 50

  /** The nineteen keywords (greetings, thanks, price and contact words) whose
      presence makes a message simple. */
  function SimpleKeywords(): (ks: seq<string>)
    ensures |ks| == 19
    ensures forall j :: 0 <= j < |ks| ==> IsKeyword(ks[j])
  {
    [ "مرحبا", "السلام", "أهلا", "هاي", "صباح", "مساء",
      "شكرا", "متشكر", "تمام", "حلو", "ممتاز",
      "السعر", "كام", "تكلفة", "ثمن",
      "التواصل", "رقم", "واتساب", "فيسبوك" ]
  }

  /** A message is simple when one of the keywords occurs in its lower-cased
      text, or when the raw message (before lower-casing) is shorter than 50
      characters. */
  function IsSimpleQuestion(lower: string -> string, message: string): (simple: bool)
    ensures simple <==>
      (exists j :: 0 <= j < |SimpleKeywords()| && Contains(lower(message), SimpleKeywords()[j]))
      || |message| < ShortMessage
  {
    ContainsAny(lower(message), SimpleKeywords()) || |message| < ShortMessage
  }
}
