# memeBot core, modelled in Dafny

memeBot is a WhatsApp bot. Every two hours it clears its memory and sends
a blast of ten memes to one group as view-once images. For each meme it
sends, it remembers the sent message's id together with the meme's URL. Any
participant can reply "send pls" (or "send please") while quoting one of
those images. If the bot still remembers that message, it re-sends the meme
as a normal image with a caption and forgets the entry. A separate command,
"!groupid", makes the bot answer with the id of the group it was typed in.

The model keeps the three parts of `index.js` that hold state or make
decisions and abstracts every network call into an input:

- `Store` (store.dfy): the `sentMemes` Map as a class `MemeStore` holding a
  `map<string, string>`, with `Clear`, `Set`, `Has`, `Get` and `Delete`.
- `Broadcast` (broadcast.dfy): the blast. Each of the ten attempts is an
  `Attempt` value (what the feed returned, whether media creation worked,
  what id the send produced). `RunCycle` is the loop. It is proved against
  the specification functions `Recorded` (the store it leaves) and
  `CycleLog` (the sends and pauses it makes), and lemmas give their
  properties.
- `Reply` (reply.dfy): the `message_create` handler. `Handle` is the
  decision as a function from a message, the store's map and the outcome
  of re-sending to an `Action` plus the new map. `HandleMessage` is the
  handler on the store object, proved equal to it.
- `Lifecycle` (lifecycle.dfy): what a reply sees right after a blast.
- `Text` (text.dfy): lower-casing of message bodies. `Wrappers`
  (wrappers.dfy): `Option`.

Three behaviours of index.js that the model keeps as written:

- The 3-second pause is inside the `try`, so it happens only after a
  successful send (index.js:82).
- An entry holds only the meme URL, keyed by the sent message's id
  (index.js:19, 79). The blast starts with no check for a blast still
  running (index.js:51-60).
- The handler runs on every created message, the bot's own included
  (index.js:97).

`Clear`'s postcondition gives the clearing properties directly. It empties
the store whatever it held, so clearing twice is the same as clearing once.
`RunCycle`'s postcondition mentions only `Recorded(attempts)`. So no entry
from before the blast survives it.

## Model

| member | source | states |
|---|---|---|
| Store.MemeStore.constructor | index.js:19 | a new store is empty |
| Store.MemeStore.Clear | index.js:60 | afterwards the store is empty, whatever it held before, so a second clear changes nothing |
| Store.MemeStore.Set | index.js:79 | the id is present and maps to the URL; every other entry is kept; an existing entry for the id is overwritten |
| Store.MemeStore.Has | index.js:115 | true exactly when the id is in the store |
| Store.MemeStore.Get | index.js:119 | gives a value exactly when the id is present, and that value is the stored URL |
| Store.MemeStore.Delete | index.js:130 | the id is gone, every other entry is kept unchanged, and an absent id is a no-op |
| Broadcast.RunCycle | index.js:51-88 | clears and then runs exactly the ten attempts; the store afterwards is `Recorded(attempts)` whatever it held before, and the events are `CycleLog(attempts)` |
| Broadcast.RecordedKeys | index.js:64-79 | an id is in the store after a blast exactly when some attempt delivered under it |
| Broadcast.RecordedValue | index.js:66-79 | each entry holds the URL that was fetched by the last attempt delivered under that id |
| Broadcast.RecordedAppend | index.js:64-86 | attempts compose in order: recording two runs one after the other is the union of their stores, with the later run winning on a shared id |
| Broadcast.FailedAttemptIsSkipped | index.js:65-85 | an attempt that fails at fetch, media or send leaves the same store as one that was never made, so it adds nothing and does not stop later attempts |
| Broadcast.RecordedSize | index.js:74-79 | when sent ids are distinct there is exactly one entry per delivered attempt |
| Broadcast.CycleLogSends | index.js:66-76 | a view-once send of URL u is in the events exactly when some attempt fetched u and delivered |
| Broadcast.CycleLogShape | index.js:73-82 | the events alternate between a view-once send to the target group and a 3000 ms pause, two per delivery, so a pause only follows a success |
| Broadcast.TwoFetchFailuresScenario | index.js:64-86 | ten attempts where the third and seventh fail to fetch leave eight entries and make eight sends |
| Text.LowerChar | index.js:99 | ASCII upper-case letters map to their lower-case forms, other characters are unchanged, and the result is never upper-case |
| Text.LowerAt | index.js:99 | the model's ASCII `Lower` keeps the length and lowers each character independently with `LowerChar` |
| Text.LowerIdempotent | index.js:99 | lower-casing twice equals lower-casing once |
| Text.LowerEqualsCaseInsensitive | index.js:99-110 | comparing the lower-cased body with a lower-case literal is a case-insensitive comparison with no trimming |
| Reply.ReplyText | index.js:103-134 | only the group-id answer and the apology reply with text, and the group-id answer ends with the chat id |
| Reply.HandleMessage | index.js:97-139 | the handler on the store object (lower-case the body, test, has, get, delete) makes the same action and leaves the same store as `Handle` |
| Reply.GroupIdRule | index.js:102-105 | "!groupid" in a group chat answers with the chat id and changes nothing else; outside a group it does nothing |
| Reply.NonGroupFallsThrough | index.js:102-111 | outside a group chat the group-id rule never fires, and a message that is not a fulfilment request then does nothing |
| Reply.OnlyRequestsFulfil | index.js:108-111 | a send, an apology or a store change happens only for a quoting reply whose lower-cased body is one of the phrases; every other message except the group-id command does nothing |
| Reply.FulfilmentPhraseMatch | index.js:99-111 | a quoting reply is a fulfilment request exactly when its body matches "send pls" or "send please" case-insensitively, character by character |
| Reply.RulesAreExclusive | index.js:102-111 | a fulfilment request is never a group-id query, since no body lower-cases to both the command and a phrase |
| Reply.UntrackedQuoteIsSilent | index.js:115 | a quoted id that is not in the store leaves the store unchanged and neither sends nor apologises |
| Reply.SuccessfulResend | index.js:119-130 | a successful re-send sends the stored URL to `message.from` with the caption, removes exactly the quoted id and keeps every other entry |
| Reply.FulfilOnce | index.js:115-130 | after a successful re-send, the same reply again is a silent no-op, whatever its re-send would do |
| Reply.FailedResendKeepsEntry | index.js:131-135 | a failed re-send answers with the apology and keeps the store, so a later request can still get the meme |
| Lifecycle.ReplyAfterCycleGetsOwnMeme | index.js:60-127 | right after a blast, a request quoting a message the blast sent gets that message's own fetched URL |
| Lifecycle.StaleQuoteIsSilent | index.js:60-115 | right after a blast, a reply quoting a message the blast did not send, such as an older blast's meme, is a silent no-op |

## Left out

- The WhatsApp client and its login: QR code, `ready` event and
  `initialize` (index.js:9-13, 28-43, 142). This is transport and session
  handling.
- The meme feed request and `MessageMedia.fromUrl` (index.js:66-71, 122),
  which are network calls. They appear only as outcomes: the fields of
  `Attempt` and the `resendOk` input of `Handle`. A response whose body
  has no `url` counts as a failed fetch.
- The cron expression, its timezone and the real-time wait of `setTimeout`
  (index.js:49-50, 82, 89-92). These are wall-clock scheduling. The pause
  appears only as a `Paused(3000)` event.
- Interleaving at `await` points. Three cases are not modelled: a reply
  handled while a blast runs, overlapping blasts, and two replies quoting
  the same meme handled at the same time. In the last case both can pass
  `sentMemes.has` (index.js:115) before either reaches `sentMemes.delete`
  (index.js:130), because the awaits at index.js:122 and 125 lie between
  them, and then both get the meme. The model treats each blast and each
  message as one sequential step.
- Reply.FulfilOnce: covers only a second reply handled after the first
  one has finished, not two overlapping replies.
- No timeout is set on the feed request, `MessageMedia.fromUrl` or
  `sendMessage` (index.js:66, 69, 74, 122). A call that never settles
  stalls the blast, and the remaining attempts never run. `RunCycle`
  assumes every outcome arrives, so "runs exactly the ten attempts" holds
  only under that assumption.
- Console logging and time formatting (index.js:34-40, 52-57, 61, 84, 87,
  116, 132).
- `getChat` and `getQuotedMessage` (index.js:98, 112) appear only as the
  resolved `Chat` and quoted id in `Message`. The case where they reject is
  not modelled.
- The two `message.reply` calls (index.js:103, 133) are not awaited. A
  failure of those replies is not modelled.
- Text.LowerChar: lower-cases only ASCII letters, one character at a time.
  `toLowerCase` differs in three ways. It also maps non-ASCII letters. Some
  of them become more than one character: "İ" (U+0130) becomes "i" plus a
  combining dot. The result for "Σ" depends on the letters around it
  ("ς" or "σ"). None of this changes the three comparisons against "!groupid",
  "send pls" and "send please". Each such result contains a non-ASCII
  character, and the Kelvin sign (which becomes "k") is the only non-ASCII
  character that lower-cases to an ASCII one. None of the three strings
  contains a "k".
