/**
 * The life of one correlation entry across the two flows that share the
 * store: a blast creates it, a fulfilled reply retires it, and the next
 * blast's clear expires whatever is left.
 */
module Lifecycle {

  import opened Wrappers
  import opened Broadcast
  import opened Reply

  /**
   * Right after a blast, a fulfilment request quoting a message that the
   * blast sent (and that no later attempt reused the id of) gets that
   * message's own meme, sent in full with the caption.
   */
  lemma {:induction false} ReplyAfterCycleGetsOwnMeme(attempts: seq<Attempt>, i: nat, m: Message)
    requires IsFulfilmentRequest(m)
    requires DeliveredUnder(attempts, i, m.quoted.value)
    requires forall j :: i < j < |attempts| ==> !DeliveredUnder(attempts, j, m.quoted.value)
    ensures Handle(m, Recorded(attempts), true).action == SendFull(m.from, attempts[i].fetched.value, Caption)
  {
    var id := m.quoted.value;
    RecordedKeys(attempts, id);
    RecordedValue(attempts, id);
    var k :| DeliveredUnder(attempts, k, id)
             && Recorded(attempts)[id] == attempts[k].fetched.value
             && forall j :: k < j < |attempts| ==> !DeliveredUnder(attempts, j, id);
    assert !(i < k) && !(k < i);
  }

  /**
   * A reply quoting a message that the latest blast did not send (an older
   * blast's meme, or any other message) is a silent no-op: the clear at the
   * start of the blast expired every earlier entry.
   */
  lemma {:induction false} StaleQuoteIsSilent(attempts: seq<Attempt>, m: Message, resendOk: bool)
    requires m.quoted.Some? && !IsGroupIdQuery(m)
    requires forall i :: 0 <= i < |attempts| ==> !DeliveredUnder(attempts, i, m.quoted.value)
    ensures Handle(m, Recorded(attempts), resendOk) == Handled(NoAction, Recorded(attempts))
  {
    RecordedKeys(attempts, m.quoted.value);
  }

}
