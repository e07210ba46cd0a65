/** The hidden scripted replies ("easter eggs") of the bot: a fixed, ordered
    table of trigger groups, and the matcher that scans it before any AI
    backend is consulted. */
module EasterEggs {
  import opened PyStr

  datatype Option<T> = None | Some(value: T)

  /** One entry of the table: a tuple of trigger phrases and the pool of
      replies one of which is picked at random when a trigger occurs. */
  datatype TriggerGroup = TriggerGroup(triggers: seq<string>, responses: seq<string>)

  /** Positions of the three groups in the table, in definition order. */
  const AppleGroup: nat := 0
  const DifficultyGroup: nat := 1
  const ThanksGroup: nat := 2

  /** Trigger phrases of the group about the apple that fell on Newton's head. */
  function AppleTriggers(): (t: seq<string>)
    ensures |t| == 4 && forall j :: 0 <= j < |t| ==> IsKeyword(t[j])
  {
    [ "تفاحة",
      "التفاحة",
      "تفاحه",
      "التفاحه" ]
  }

  /** Reply pool of the group about the apple that fell on Newton's head. */
  function AppleReplies(): (p: seq<string>)
    ensures |p| == 3 && forall j :: 0 <= j < |p| ==> p[j] != []
  {
    [ "أرجوك لا تذكرني بها، رأسي ما " +
      "زال يؤلمني! 🤕\n" +
      "دعنا نركز في المنهج.",
      "تفاحة؟! 😤 كل مرة أسمع هذه " +
      "الكلمة أحس بألم في رأسي...\n" +
      "الجاذبية اكتشفتها مرة واحدة " +
      "وكفى! 🍎",
      "آه من التفاحة دي! 🍎 سببت لي " +
      "صداع دام 300 سنة...\n" +
      "يلا نرجع للمنهج قبل ما أتذكر " +
      "الألم! 😅" ]
  }

  /** Trigger phrases of the group about "this is hard" and "I do not understand". */
  function DifficultyTriggers(): (t: seq<string>)
    ensures |t| == 9 && forall j :: 0 <= j < |t| ==> IsKeyword(t[j])
  {
    [ "صعب",
      "مش فاهم",
      "مش فاهمه",
      "صعبة",
      "صعبه",
      "مفهمتش",
      "معرفش",
      "تقيل",
      "تقيلة" ]
  }

  /** Reply pool of the group about "this is hard" and "I do not understand". */
  function DifficultyReplies(): (p: seq<string>)
    ensures |p| == 3 && forall j :: 0 <= j < |p| ==> p[j] != []
  {
    [ "الفيزياء ليست صعبة، هي فقط " +
      "تحتاج إلى *طاقة وضع* صحيحة! 🧠\n" +
      "ومستر فارس سيحولها إلى *طاقة " +
      "حركة* في دماغك! 💪\n" +
      "جرب الكورس وهتحس بالفرق! 🚀",
      "أنا اللي اشتغلت سنين عشان " +
      "أفهم الفيزياء، وأنت هتستسلم " +
      "بسهولة؟! 😄\n" +
      "مفيش حاجة صعبة... في بس حاجات " +
      "محتاجة *تسارع* أكبر! ⚡\n" +
      "مستر فارس هيضيف لك العجلة " +
      "المطلوبة! 🎯",
      "القوة = الكتلة × التسارع... " +
      "يعني كل ما زاد تركيزك، زادت " +
      "القوة! 💡\n" +
      "مش صعبة، بس محتاج الشرح الصح.\n" +
      "ومستر فارس عنده الشرح اللي " +
      "هيخليك تقول 'أيوه ده سهل'! 😊" ]
  }

  /** Trigger phrases of the group about thanks and affection. */
  function ThanksTriggers(): (t: seq<string>)
    ensures |t| == 11 && forall j :: 0 <= j < |t| ==> IsKeyword(t[j])
  {
    [ "بحبك",
      "بحبك يا نيوتن",
      "شكرا",
      "شكراً",
      "شكرًا",
      "مشكور",
      "تسلم",
      "يسلمو",
      "ميرسي",
      "thanks",
      "thank you" ]
  }

  /** Reply pool of the group about thanks and affection. */
  function ThanksReplies(): (p: seq<string>)
    ensures |p| == 3 && forall j :: 0 <= j < |p| ==> p[j] != []
  {
    [ "وأنا بحبك أكتر! 🥹\n" +
      "تذكر قانون الجذب العام: كل " +
      "جسمين بينهما *قوة جذب* تتناسب " +
      "مع كتلتيهما!\n" +
      "وأنا وأنت، جذبنا للعلم أقوى " +
      "من جاذبية الأرض! 🌍✨",
      "شكرك ده زي قوة الجذب، بتشدني " +
      "للاستمرار في مساعدتك! 🍎❤️\n" +
      "F = G × (m₁ × m₂) / r²\n" +
      "يعني كلما قربنا من بعض في " +
      "العلم، زادت قوة الجذب بيننا! " +
      "😄🚀",
      "يسعدني! 😊\n" +
      "أنا نيوتن بقالي 300 سنة بساعد " +
      "الناس تفهم الفيزياء...\n" +
      "وكلمة 'شكرا' منك بتخليني أحس " +
      "إن التفاحة دي كانت تستاهل! 🍎😂" ]
  }

  /** The table in definition order (a Python dict keeps insertion order,
      so the scan order is the order written here). */
  function Table(): seq<TriggerGroup> {
    [ TriggerGroup(AppleTriggers(), AppleReplies()),
      TriggerGroup(DifficultyTriggers(), DifficultyReplies()),
      TriggerGroup(ThanksTriggers(), ThanksReplies()) ]
  }

  /** The text the matcher searches: `message.lower().strip()`, with the
      Unicode case mapping taken as a parameter. */
  function Normalize(lower: string -> string, message: string): string {
    Strip(lower(message))
  }

  /** Some trigger of group `g` is a substring of `s`. */
  ghost predicate GroupMatches(g: TriggerGroup, s: string) {
    exists j :: 0 <= j < |g.triggers| && Contains(s, g.triggers[j])
  }

  /** Index of the first group, in table order, that has a trigger occurring
      in `s`; `None` when no trigger of any group occurs. */
  function FirstMatch(table: seq<TriggerGroup>, s: string): (r: Option<nat>)
    ensures r.Some? ==> r.value < |table| && GroupMatches(table[r.value], s)
    ensures r.Some? ==> forall i :: 0 <= i < r.value ==> !GroupMatches(table[i], s)
    ensures r.None? ==> forall i :: 0 <= i < |table| ==> !GroupMatches(table[i], s)
  {
    if table == [] then None
    else if ContainsAny(s, table[0].triggers) then Some(0)
    else
      var r := FirstMatch(table[1..], s);
      assert forall i :: 1 <= i < |table| ==> table[i] == table[1..][i - 1];
      match r
      case None => None
      case Some(k) => Some(k + 1)
  }

  /** The first group that matches is the answer of `FirstMatch`. */
  lemma FirstMatchAt(table: seq<TriggerGroup>, s: string, i: nat)
    requires i < |table| && GroupMatches(table[i], s)
    requires forall k :: 0 <= k < i ==> !GroupMatches(table[k], s)
    ensures FirstMatch(table, s) == Some(i)
  {
  }

  /** When no group matches, no trigger of any group occurs. */
  lemma FirstMatchNone(table: seq<TriggerGroup>, s: string)
    requires forall k :: 0 <= k < |table| ==> !GroupMatches(table[k], s)
    ensures FirstMatch(table, s) == None
    ensures forall i, j :: 0 <= i < |table| && 0 <= j < |table[i].triggers| ==>
      !Contains(s, table[i].triggers[j])
  {
  }

  /** What the table promises: every pool has a reply to pick, every reply
      is a non-empty (so truthy) string, and every trigger is a non-empty
      phrase that neither starts nor ends with whitespace. */
  predicate WellFormed(table: seq<TriggerGroup>) {
    forall i :: 0 <= i < |table| ==> WellFormedGroup(table[i])
  }

  predicate WellFormedGroup(g: TriggerGroup) {
    g.responses != []
    && (forall j :: 0 <= j < |g.responses| ==> g.responses[j] != [])
    && (forall j :: 0 <= j < |g.triggers| ==> IsKeyword(g.triggers[j]))
  }

  /** `check_easter_egg`: scan the groups in order and the triggers of each
      group in order; at the first trigger contained in the normalized
      message, answer with a reply picked from that group's pool. The random
      pick is a nondeterministic choice. */
  method CheckEasterEgg(table: seq<TriggerGroup>, lower: string -> string, message: string)
    returns (reply: Option<string>)
    requires forall i :: 0 <= i < |table| ==> table[i].responses != []
    ensures reply.None? <==>
      forall i, j :: 0 <= i < |table| && 0 <= j < |table[i].triggers| ==>
        !Contains(Normalize(lower, message), table[i].triggers[j])
    ensures reply.None? <==> FirstMatch(table, Normalize(lower, message)).None?
    ensures reply.Some? ==>
      var g := FirstMatch(table, Normalize(lower, message));
      g.Some? && reply.value in table[g.value].responses
  {
    var normalized := Normalize(lower, message);
    var i := 0;
    while i < |table|
      invariant 0 <= i <= |table|
      invariant forall k :: 0 <= k < i ==> !GroupMatches(table[k], normalized)
    {
      var triggers := table[i].triggers;
      var j := 0;
      while j < |triggers|
        invariant 0 <= j <= |triggers|
        invariant forall k :: 0 <= k < j ==> !Contains(normalized, triggers[k])
      {
        if Contains(normalized, triggers[j]) {
          assert GroupMatches(table[i], normalized);
          FirstMatchAt(table, normalized, i);
          assert table[i].responses[0] in table[i].responses;
          var pick :| pick in table[i].responses;
          return Some(pick);
        }
        j := j + 1;
      }
      i := i + 1;
    }
    FirstMatchNone(table, normalized);
    return None;
  }

  /** The bot's table keeps the promises of `WellFormed`. */
  lemma TableWellFormed()
    ensures WellFormed(Table())
  {
  }

  /** An empty or whitespace-only (lower-cased) message never matches a
      table whose triggers are all keywords. */
  lemma BlankNeverMatches(table: seq<TriggerGroup>, lower: string -> string, message: string)
    requires WellFormed(table)
    requires forall i :: 0 <= i < |lower(message)| ==> IsSpace(lower(message)[i])
    ensures FirstMatch(table, Normalize(lower, message)) == None
  {
    StripBlank(lower(message));
    forall i | 0 <= i < |table| ensures !GroupMatches(table[i], Normalize(lower, message)) {
      assert WellFormedGroup(table[i]);
    }
  }

  /** `table` has the bot's three trigger tuples, in the bot's order
      (whatever its reply pools). */
  predicate HasBotTriggers(table: seq<TriggerGroup>) {
    |table| == 3
    && table[AppleGroup].triggers == AppleTriggers()
    && table[DifficultyGroup].triggers == DifficultyTriggers()
    && table[ThanksGroup].triggers == ThanksTriggers()
  }

  /** The bot's table has the bot's triggers. */
  lemma TableHasBotTriggers()
    ensures HasBotTriggers(Table())
  {
  }

  /** If trigger `j` of group `g` occurs in the lower-cased message, a group
      fires, and it is group `g` or one defined before it. */
  lemma TriggerFires(table: seq<TriggerGroup>, lower: string -> string, message: string, g: nat, j: nat)
    requires g < |table| && j < |table[g].triggers| && IsKeyword(table[g].triggers[j])
    requires Contains(lower(message), table[g].triggers[j])
    ensures FirstMatch(table, Normalize(lower, message)).Some?
    ensures FirstMatch(table, Normalize(lower, message)).value <= g
  {
    var t := table[g].triggers[j];
    StripKeepsContains(lower(message), t);
    assert GroupMatches(table[g], Normalize(lower, message));
  }

  /** Earlier groups win ties: a message that mentions both difficulty
      ("صعب") and thanks ("شكرا") never gets a reply from the thanks group. */
  lemma DifficultyBeatsThanks(table: seq<TriggerGroup>, lower: string -> string, message: string)
    requires HasBotTriggers(table)
    requires Contains(lower(message), "صعب")
    requires Contains(lower(message), "شكرا")
    ensures FirstMatch(table, Normalize(lower, message)).Some?
    ensures FirstMatch(table, Normalize(lower, message)).value != ThanksGroup
  {
    assert DifficultyTriggers()[0] == "صعب";
    TriggerFires(table, lower, message, DifficultyGroup, 0);
  }

  /** A message mentioning "شكرا" or "thanks" always fires an easter egg;
      without an apple or difficulty trigger the reply comes from the
      thanks group. */
  lemma ThanksFires(table: seq<TriggerGroup>, lower: string -> string, message: string)
    requires HasBotTriggers(table)
    requires Contains(lower(message), "شكرا") || Contains(lower(message), "thanks")
    ensures FirstMatch(table, Normalize(lower, message)).Some?
    ensures !GroupMatches(table[AppleGroup], Normalize(lower, message))
            && !GroupMatches(table[DifficultyGroup], Normalize(lower, message))
            ==> FirstMatch(table, Normalize(lower, message)) == Some(ThanksGroup)
  {
    var j := if Contains(lower(message), "شكرا") then 2 else 9;
    assert ThanksTriggers()[2] == "شكرا" && ThanksTriggers()[9] == "thanks";
    TriggerFires(table, lower, message, ThanksGroup, j);
    var s := Normalize(lower, message);
    var g := FirstMatch(table, s).value;
    if !GroupMatches(table[AppleGroup], s) && !GroupMatches(table[DifficultyGroup], s) {
      assert g != AppleGroup && g != DifficultyGroup;
    }
  }
}
