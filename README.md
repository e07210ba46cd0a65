# Physics-assistant chat bot: message routing, modelled in Dafny

The bot answers students' chat messages. Before any AI backend is asked, it
checks the message against a fixed, ordered table of "easter egg" trigger
phrases (the apple that hit Newton, "this is hard", thanks). A hit is answered
with a reply picked at random from that group's pool. Otherwise a crude
classifier decides whether the message is "simple". A simple message goes
first to the fast secondary backend (Groq), if one is configured. Any Groq
failure falls back to the primary backend (Gemini). A Gemini failure gives a
fixed apology. The `/stats` command is gated on the administrator id.

This project models that logic and proves its properties:

- `pystr.dfy` (module `PyStr`): the Python string built-ins the logic uses.
  - `str.isspace` on one character.
  - `str.strip()`.
  - Substring containment `needle in hay`, and `any(...)` over keywords.
- `easter_eggs.dfy` (module `EasterEggs`): the trigger table, exactly as
  written, in definition order.
  - `FirstMatch` is the specification: the first group, in table order, with
    a trigger contained in the normalized message.
  - `CheckEasterEgg` is the nested-loop scan with its early return. It is
    proved against `FirstMatch`.
- `classifier.dfy` (module `Classifier`): `is_simple_question`, with the
  19 keywords and the threshold of 50.
- `router.dfy` (module `Router`): `get_ai_response` and the message path of
  `handle_message`.
  - The backends are oracle functions from the request to
    `Success(text)` or `Failure`.
  - Each method returns the reply and the trace of backend calls it made.
  - `FollowsPolicy` states the routing policy on that trace.
- `admin.dfy` (module `Admin`): the administrator gate of `stats_command`.

Python's `str.lower()` is a parameter `lower: string -> string`. Start-up
configuration is one immutable `Config` value: the persona text, the
knowledge text, whether a Groq client exists, the administrator id and the
easter-egg table. The random pick is a nondeterministic choice (`:|`) from
the pool.

The trigger lemmas (`TriggerFires`, `DifficultyBeatsThanks`, `ThanksFires`)
are stated for any table with the bot's three trigger tuples in the bot's
order (`HasBotTriggers`). `TableHasBotTriggers` proves that the bot's own
`Table()` has them, and `TableWellFormed` proves that it is well formed.
Together with `HandleMessage`'s postcondition this gives two facts about the
running bot:

- A message whose lower-cased text contains "شكرا" or "thanks" is answered
  from the table, with no backend call (`ThanksNeverReachesBackend`).
- A message whose lower-cased text is empty or whitespace-only never hits an
  easter egg (`BlankNeverMatches`).

Behaviour of the code worth knowing, which the model follows:

- "شكرا" is both a trigger of the thanks group and one of the classifier's
  keywords. A message containing it is always answered by the easter egg. It
  never reaches the classifier, so it is never routed to a backend (`ThanksFires`).
- The router does not guarantee a non-empty reply. When the answering backend
  returns only whitespace, the stripped reply is the empty string
  (`BlankAnswerIsEmpty`).
- Matching is unanchored substring search on the lower-cased, stripped
  message. A trigger also fires inside a longer, unrelated word.
- The administrator's `/stats` text always reports the knowledge file as
  loaded (main.py:386), even when `knowledge.txt` was missing at start-up
  and only a warning was logged (main.py:64-65). The model's
  `StatsReply.Status` carries no knowledge flag, since the text shows a
  constant there.

## Model

| member | source | states |
|---|---|---|
| PyStr.Contains | main.py:559 | `needle in hay` is true exactly when the needle occurs in the haystack at some position (the empty needle occurs everywhere) |
| PyStr.ContainsAny | main.py:153 | `any(k in hay for k in keys)` is true exactly when some key of the list is contained in `hay` |
| PyStr.StripStartSpec | main.py:554 | the left-stripped string is a suffix of the input, all the characters cut off are whitespace, and it does not start with whitespace |
| PyStr.StripEndSpec | main.py:554 | the right-stripped string is a prefix of the input, all the characters cut off are whitespace, and it does not end with whitespace |
| PyStr.StripSpec | main.py:554 | `strip()` returns a contiguous slice of the input with only whitespace outside it, and the slice neither starts nor ends with whitespace |
| PyStr.StripKeepsContains | main.py:554-559 | stripping the message never changes whether a trigger occurs in it, as long as the trigger is non-empty and starts and ends on non-whitespace |
| PyStr.StripBlank | main.py:554 | a message made only of whitespace strips to the empty string |
| EasterEggs.AppleTriggers | main.py:532 | the apple group has its four triggers, each non-empty, starting and ending on non-whitespace |
| EasterEggs.AppleReplies | main.py:533-535 | the apple group's pool has three replies, all non-empty |
| EasterEggs.DifficultyTriggers | main.py:537 | the difficulty group has its nine triggers, each non-empty, starting and ending on non-whitespace |
| EasterEggs.DifficultyReplies | main.py:538-540 | the difficulty group's pool has three replies, all non-empty |
| EasterEggs.ThanksTriggers | main.py:542 | the thanks group has its eleven triggers, each non-empty, starting and ending on non-whitespace |
| EasterEggs.ThanksReplies | main.py:543-545 | the thanks group's pool has three replies, all non-empty |
| EasterEggs.FirstMatch | main.py:556-562 | the chosen group has a contained trigger and no earlier group does; `None` exactly when no group has a contained trigger |
| EasterEggs.CheckEasterEgg | main.py:549-562 | returns `None` exactly when no trigger of any group is contained in `lower(message).strip()`; otherwise returns a member of the pool of the first group, in table order, with a contained trigger |
| EasterEggs.TableWellFormed | main.py:531-547 | in the bot's table every pool is non-empty, every reply is a non-empty (truthy) string, and every trigger is non-empty and starts and ends on non-whitespace |
| EasterEggs.TableHasBotTriggers | main.py:531-547 | the bot's table holds exactly the three trigger tuples, in definition order |
| EasterEggs.BlankNeverMatches | main.py:554-562 | for a well-formed table, a message whose lower-cased text is empty or only whitespace matches no group |
| EasterEggs.TriggerFires | main.py:554-560 | if a trigger of group g (non-empty, non-whitespace ends) occurs in the lower-cased message, some group fires, and it is g or a group defined before g |
| EasterEggs.DifficultyBeatsThanks | main.py:537-542 | a message containing both "صعب" and "شكرا" fires a group, and never the thanks group: earlier groups win |
| EasterEggs.ThanksFires | main.py:542-560 | a message containing "شكرا" or "thanks" always fires an easter egg, and it fires the thanks group when no apple or difficulty trigger occurs |
| Classifier.SimpleKeywords | main.py:145-150 | the classifier has 19 keywords, each non-empty, starting and ending on non-whitespace |
| Classifier.IsSimpleQuestion | main.py:141-153 | a message is simple exactly when one of the 19 keywords occurs in its lower-cased text, or the raw message is shorter than 50 characters; so it is complex exactly when it is at least 50 long and contains no keyword |
| Router.Apology | main.py:137-139 | the fixed apology after a primary-backend failure is a non-empty string |
| Router.GetAiResponse | main.py:100-139 | one or two backend calls. Groq is tried, first, exactly when simple and configured. Gemini is called at most once, last, exactly when Groq was not tried or failed. The reply is the stripped text of the last call, or the apology when Gemini failed |
| Router.PolicyCases | main.py:118-139 | the policy fixes the trace and reply: Groq not tried gives only Gemini; Groq success gives only Groq and its stripped text; Groq failure gives Groq then Gemini and Gemini's answer |
| Router.BothFailApology | main.py:130-139 | when Groq is tried and fails and Gemini fails too, exactly two calls are made and the reply is the fixed apology |
| Router.BlankAnswerIsEmpty | main.py:129-135 | a backend answer made only of whitespace becomes the empty reply |
| Router.ThanksNeverReachesBackend | main.py:542-596 | with the bot's triggers, a message whose lower-cased text contains "شكرا" or "thanks" always fires an easter egg: no backend call is made and the reply is from the first firing group's pool |
| Router.HandleMessage | main.py:579-596 | at most two backend calls. On an easter-egg match there is no backend call and the reply is from the first matching group's pool. Otherwise the call policy holds, with the classifier's verdict as the Groq choice |
| Admin.RefusalText | main.py:371 | the refusal is a non-empty fixed string |
| Admin.StatsCommand | main.py:366-372 | refusal exactly when the sender is not the administrator, and then only the fixed refusal text; the administrator gets the snapshot of the configured backends and id |
| Admin.RefusalLeaksNothing | main.py:370-372 | a refused caller gets the same reply whatever the configuration |
| Admin.UnsetAdminLocksOut | main.py:39 | with ADMIN_USER_ID unset (id 0), every user with a positive id is refused |

## Left out

- Static menus and buttons (`start_command`, `help_command`, `courses_command`, `prices_command`, `about_command`, `contact_command`, `button_callback`): constant text with no logic.
- Telegram I/O: the typing indicator, `reply_text` (including Markdown parsing of the replies), `error_handler`, and handler registration and polling in `main()`.
- The outer `except` of `handle_message` (main.py:600-605): with a well-formed table it fires only when a Telegram call fails, which is I/O. An empty reply pool would make `random.choice` raise into it, so `HandleMessage` requires a well-formed table, which the bot's table is (`TableWellFormed`). One Telegram failure is caused by the core itself: when the answering backend returns only whitespace, the router's reply is "" (`BlankAnswerIsEmpty`), Telegram rejects the empty text passed to `reply_text` (main.py:597), and the user then sees the outer handler's second apology with the support link instead. The model ends at the router's reply and does not model that second apology.
- The Groq and Gemini SDK calls, model names and generation parameters: each backend is an oracle that returns `Success(text)` or `Failure`. A missing `content` or `text` attribute counts as `Failure`.
- The persona text `BOT_PERSONALITY` is not reproduced: it is the `persona` field of `Config`, and the prompts are built from it by concatenation.
- Loading environment variables, the fatal start-up checks, and reading `knowledge.txt`: their results are the fields of `Config`.
- Logging, and the timestamp and Markdown rendering of the `/stats` text: `StatsReply.Status` carries only the data the text shows.
- Uniformity of `random.choice`: the pick is any member of the pool.
- Async scheduling: message handling shares no mutable state.
- Python's Unicode `str.lower()`: it is a parameter with no properties.
- EasterEggs.ThanksFires: states containment in the lower-cased message `lower(message)`, not in the raw message, because `lower` is abstract. Python's `lower()` leaves Arabic letters and lower-case ASCII unchanged, so a raw message containing one of these triggers has a lower-cased text containing it. The converse does not hold ("THANKS" lower-cases to a text containing "thanks"), which is why the lemma is stated on the lower-cased text: it implies the raw-message form.
- EasterEggs.DifficultyBeatsThanks: stated on the lower-cased message, for the same reason.
- EasterEggs.BlankNeverMatches: stated on the lower-cased message. It covers an empty or whitespace-only raw message only given that Python's `lower()` maps whitespace-only text to whitespace-only text, which the abstract `lower` parameter does not promise.
- Router.ThanksNeverReachesBackend: stated on the lower-cased message, for the same reason as `ThanksFires`.
- Strings containing lone surrogate code points, which Python allows and Dafny's `string` cannot hold.
