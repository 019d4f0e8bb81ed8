/**
 * The `message_create` handler (index.js:97-139). Two rules run in order:
 * the group-id rule (the "!groupid" command, which answers and ends
 * handling) and the fulfilment rule (a "send pls" reply quoting a meme
 * still in the store).
 *
 * Whether re-sending the meme works (turning its URL into media and
 * sending it) is an input: the network calls are not modelled.
 */
module Reply {

  import opened Wrappers
  import opened Text
  import opened Store

  /** The command that asks for the chat's id (index.js:102). */
  const GroupIdCommand: string := "!groupid"
  /** The two fulfilment phrases (index.js:110). */
  const SendPls: string := "send pls"
  const SendPlease: string := "send please"
  /** The caption of a re-sent meme (index.js:126). */
  const Caption: string := "Here you go! \U{1F609}"
  /** The reply when re-sending fails (index.js:134). */
  const ApologyText: string := "Ah, sorry. I couldn't seem to find that one. Try again."
  /** The text before the chat id in the answer to the command (index.js:103). */
  const GroupIdPrefix: string := "This group's ID is: "

  /** The chat a message belongs to: its serialized id and whether it is a group. */
  datatype Chat = Chat(id: string, isGroup: bool)

  /**
   * A created message: its body, its `from` id (where a re-sent meme goes),
   * its chat and, when it
   * quotes another message, the serialized id of that message.
   */
  datatype Message = Message(body: string, from: string, chat: Chat, quoted: Option<string>)

  /** What the handler does to the outside world for one message. */
  datatype Action =
    | NoAction
    | ReplyGroupId(chatId: string)
    | SendFull(to: string, url: string, caption: string)
    | Apology

  /** The handler's effect: the action it takes and the store it leaves. */
  datatype Handled = Handled(action: Action, entries: map<string, string>)

  /** The text sent back by `message.reply`, for the actions that reply. */
  function ReplyText(a: Action): (r: Option<string>)
    ensures r.Some? <==> a.ReplyGroupId? || a.Apology?
    ensures a.ReplyGroupId? ==> |r.value| >= |a.chatId| && r.value[|r.value| - |a.chatId|..] == a.chatId
  {
    match a
    case ReplyGroupId(chatId) => Some(GroupIdPrefix + chatId)
    case Apology => Some(ApologyText)
    case _ => None
  }

  /** The group-id rule's trigger: the command, in a group chat. */
  predicate IsGroupIdQuery(m: Message)
  {
    Lower(m.body) == GroupIdCommand && m.chat.isGroup
  }

  /** The fulfilment rule's trigger: a quoting reply whose body is one of the phrases. */
  predicate IsFulfilmentRequest(m: Message)
  {
    m.quoted.Some? && (Lower(m.body) == SendPls || Lower(m.body) == SendPlease)
  }

  /**
   * The handler's decision for message `m` against the store `entries`;
   * `resendOk` says whether re-sending the meme would work.
   */
  function Handle(m: Message, entries: map<string, string>, resendOk: bool): Handled
  {
    if IsGroupIdQuery(m) then Handled(ReplyGroupId(m.chat.id), entries)
    else if !IsFulfilmentRequest(m) then Handled(NoAction, entries)
    else
      var q := m.quoted.value;
      if q !in entries then Handled(NoAction, entries)
      else if resendOk then Handled(SendFull(m.from, entries[q], Caption), entries - {q})
      else Handled(Apology, entries)
  }

  /**
   * The handler itself, on the store object, using its `has`, `get` and
   * `delete` as the source does.
   */
  method HandleMessage(store: MemeStore, m: Message, resendOk: bool) returns (action: Action)
    modifies store
    ensures Handled(action, store.entries) == Handle(m, old(store.entries), resendOk)
  {
    var replyText := Lower(m.body);
    if replyText == GroupIdCommand && m.chat.isGroup {
      return ReplyGroupId(m.chat.id);
    }
    action := NoAction;
    if m.quoted.Some? && (replyText == SendPls || replyText == SendPlease) {
      var q := m.quoted.value;
      var present := store.Has(q);
      if present {
        var url := store.Get(q);
        if resendOk {
          action := SendFull(m.from, url.value, Caption);
          store.Delete(q);
        } else {
          action := Apology;
        }
      }
    }
  }

  /**
   * The group-id rule: the command in a group chat answers with that chat's id and
   * nothing else happens; the same command outside a group does nothing.
   */
  lemma GroupIdRule(m: Message, entries: map<string, string>, resendOk: bool)
    requires Lower(m.body) == GroupIdCommand
    ensures m.chat.isGroup ==> Handle(m, entries, resendOk) == Handled(ReplyGroupId(m.chat.id), entries)
    ensures !m.chat.isGroup ==> Handle(m, entries, resendOk) == Handled(NoAction, entries)
  {
  }

  /**
   * Outside a group chat the group-id rule never fires: handling falls
   * through to the fulfilment rule.
   */
  lemma NonGroupFallsThrough(m: Message, entries: map<string, string>, resendOk: bool)
    requires !m.chat.isGroup
    ensures !IsGroupIdQuery(m)
    ensures !IsFulfilmentRequest(m) ==> Handle(m, entries, resendOk) == Handled(NoAction, entries)
  {
  }

  /**
   * The fulfilment rule: only a quoting reply whose lower-cased body is exactly one of
   * the phrases can send or change the store; any other message that is
   * not the group-id command leaves the store alone and does nothing.
   */
  lemma OnlyRequestsFulfil(m: Message, entries: map<string, string>, resendOk: bool)
    ensures var h := Handle(m, entries, resendOk);
            (h.action.SendFull? || h.action.Apology? || h.entries != entries) ==> IsFulfilmentRequest(m)
    ensures !IsGroupIdQuery(m) && !IsFulfilmentRequest(m) ==>
              Handle(m, entries, resendOk) == Handled(NoAction, entries)
  {
  }

  /**
   * The two rules never both apply: no body lower-cases both to the
   * group-id command and to a fulfilment phrase.
   */
  lemma RulesAreExclusive(m: Message)
    requires IsFulfilmentRequest(m)
    ensures !IsGroupIdQuery(m)
  {
  }

  /** A quoted id the store does not hold is a silent no-op. */
  lemma UntrackedQuoteIsSilent(m: Message, entries: map<string, string>, resendOk: bool)
    requires m.quoted.Some? && m.quoted.value !in entries
    ensures Handle(m, entries, resendOk).entries == entries
    ensures Handle(m, entries, resendOk).action in {NoAction, ReplyGroupId(m.chat.id)}
  {
  }

  /**
   * A successful re-send sends the stored URL to `message.from` with the
   * caption, then removes exactly the quoted id and keeps every other
   * entry as it was.
   */
  lemma SuccessfulResend(m: Message, entries: map<string, string>)
    requires IsFulfilmentRequest(m) && m.quoted.value in entries
    ensures var h := Handle(m, entries, true);
            && h.action == SendFull(m.from, entries[m.quoted.value], Caption)
            && h.entries.Keys == entries.Keys - {m.quoted.value}
            && forall k :: k in h.entries ==> h.entries[k] == entries[k]
  {
  }

  /**
   * Fulfilment happens once for replies handled one after the other: once
   * a successful re-send has finished, the same reply, whatever its re-send
   * would do, is a silent no-op. Two replies whose handling overlaps are
   * not covered (see the README).
   */
  lemma FulfilOnce(m: Message, entries: map<string, string>, firstOk: bool, againOk: bool)
    requires Handle(m, entries, firstOk).action.SendFull?
    ensures var after := Handle(m, entries, firstOk).entries;
            Handle(m, after, againOk) == Handled(NoAction, after)
  {
  }

  /**
   * A failed re-send answers with the apology and keeps the store, so the
   * same reply can ask again and, when re-sending works, gets the meme.
   */
  lemma FailedResendKeepsEntry(m: Message, entries: map<string, string>)
    requires IsFulfilmentRequest(m) && m.quoted.value in entries
    ensures Handle(m, entries, false) == Handled(Apology, entries)
    ensures Handle(m, Handle(m, entries, false).entries, true).action
              == SendFull(m.from, entries[m.quoted.value], Caption)
  {
  }

  /** The two trigger phrases contain no upper-case letter. */
  lemma PhrasesAreLower()
    ensures IsLower(SendPls) && IsLower(SendPlease) && IsLower(GroupIdCommand)
  {
  }

  /**
   * The phrases are matched ignoring case but otherwise exactly: a body
   * triggers fulfilment when, character by character, it lower-cases to
   * one of them.
   */
  lemma {:induction false} FulfilmentPhraseMatch(m: Message)
    requires m.quoted.Some?
    ensures IsFulfilmentRequest(m) <==>
              (|m.body| == |SendPls| && forall i :: 0 <= i < |m.body| ==> LowerChar(m.body[i]) == SendPls[i])
              || (|m.body| == |SendPlease| && forall i :: 0 <= i < |m.body| ==> LowerChar(m.body[i]) == SendPlease[i])
  {
    PhrasesAreLower();
    LowerEqualsCaseInsensitive(m.body, SendPls);
    LowerEqualsCaseInsensitive(m.body, SendPlease);
  }

}
