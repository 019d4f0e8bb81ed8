/**
 * One meme blast: the body of the scheduled callback (index.js:51-88). The
 * store is cleared, then ten attempts run one after another; each fetches a
 * meme URL, turns it into media, sends it view-once to the target group and
 * records the sent message's id against the URL. A failure at any of the
 * three steps ends that attempt only.
 *
 * The network calls are not modelled: each attempt's outcomes are an input.
 */
module Broadcast {

  import opened Wrappers
  import opened Store

  /** The group the blast goes to (index.js:25). */
  const TargetGroupId: string := "1"
  /** The number of attempts in one blast (index.js:64). */
  const BatchSize: nat := 10
  /** The pause after a successful send, in milliseconds (index.js:82). */
  const PauseMillis: nat := 3000

  /**
   * What the outside world answers during one attempt: the URL the feed
   * returned (None when the request or its body failed), whether that URL
   * could be turned into media, and the id the transport gave the sent
   * message (None when the send failed). A later field is consulted only
   * when the earlier steps succeeded.
   */
  datatype Attempt = Attempt(fetched: Option<string>, mediaOk: bool, sentId: Option<string>)

  /** What a blast does that can be seen from outside. */
  datatype Event =
    | ViewOnceSent(chat: string, url: string)
    | Paused(millis: nat)

  /** An attempt that got through fetch, media and send. */
  predicate Delivers(a: Attempt)
  {
    a.fetched.Some? && a.mediaOk && a.sentId.Some?
  }

  /**
   * The store that a run of attempts leaves behind, starting empty: each
   * delivering attempt sets its sent id to its fetched URL, in order.
   */
  function Recorded(attempts: seq<Attempt>): map<string, string>
  {
    if attempts == [] then map[]
    else
      var before := Recorded(attempts[..|attempts| - 1]);
      var a := attempts[|attempts| - 1];
      if Delivers(a) then before[a.sentId.value := a.fetched.value] else before
  }

  /** The events a run of attempts produces: a send and a pause per delivery. */
  function CycleLog(attempts: seq<Attempt>): seq<Event>
  {
    if attempts == [] then []
    else
      var before := CycleLog(attempts[..|attempts| - 1]);
      var a := attempts[|attempts| - 1];
      if Delivers(a) then before + [ViewOnceSent(TargetGroupId, a.fetched.value), Paused(PauseMillis)]
      else before
  }

  /** The number of attempts that delivered. */
  function DeliveredCount(attempts: seq<Attempt>): (n: nat)
    ensures n <= |attempts|
  {
    if attempts == [] then 0
    else DeliveredCount(attempts[..|attempts| - 1]) + if Delivers(attempts[|attempts| - 1]) then 1 else 0
  }

  /** Some attempt in the run delivered under the id `id`. */
  predicate DeliveredUnder(attempts: seq<Attempt>, i: int, id: string)
  {
    0 <= i < |attempts| && Delivers(attempts[i]) && attempts[i].sentId.value == id
  }

  /** No two delivering attempts were given the same id by the transport. */
  predicate DistinctIds(attempts: seq<Attempt>)
  {
    forall i, j :: 0 <= i < j < |attempts| && Delivers(attempts[i]) && Delivers(attempts[j]) ==>
      attempts[i].sentId.value != attempts[j].sentId.value
  }

  /**
   * The blast. The store's previous contents play no part: afterwards it
   * holds exactly what this blast's attempts recorded, and the events are
   * one view-once send to the target group and one pause per delivery.
   */
  method RunCycle(store: MemeStore, attempts: seq<Attempt>) returns (log: seq<Event>)
    requires |attempts| == BatchSize
    modifies store
    ensures store.entries == Recorded(attempts)
    ensures log == CycleLog(attempts)
  {
    store.Clear();
    log := [];
    for i := 0 to BatchSize
      invariant store.entries == Recorded(attempts[..i])
      invariant log == CycleLog(attempts[..i])
    {
      assert attempts[..i + 1][..i] == attempts[..i];
      var a := attempts[i];
      if a.fetched.None? {
        continue;
      }
      var url := a.fetched.value;
      if !a.mediaOk {
        continue;
      }
      if a.sentId.None? {
        continue;
      }
      store.Set(a.sentId.value, url);
      log := log + [ViewOnceSent(TargetGroupId, url), Paused(PauseMillis)];
    }
    assert attempts[..BatchSize] == attempts;
  }

  /** Recording two runs back to back: on a shared id the later run wins. */
  lemma {:induction false} RecordedAppend(xs: seq<Attempt>, ys: seq<Attempt>)
    ensures Recorded(xs + ys) == Recorded(xs) + Recorded(ys)
    decreases |ys|
  {
    if ys == [] {
      assert xs + ys == xs;
    } else {
      var n := |ys| - 1;
      assert (xs + ys)[..|xs + ys| - 1] == xs + ys[..n];
      RecordedAppend(xs, ys[..n]);
    }
  }

  /** The store's ids are exactly the ids of the delivering attempts. */
  lemma {:induction false} RecordedKeys(attempts: seq<Attempt>, id: string)
    ensures id in Recorded(attempts) <==> exists i :: DeliveredUnder(attempts, i, id)
  {
    if attempts != [] {
      var n := |attempts| - 1;
      var init := attempts[..n];
      var a := attempts[n];
      RecordedKeys(init, id);
      if exists i :: DeliveredUnder(init, i, id) {
        var i :| DeliveredUnder(init, i, id);
        assert DeliveredUnder(attempts, i, id);
      }
      if Delivers(a) && a.sentId.value == id {
        assert DeliveredUnder(attempts, n, id);
      } else if exists i :: DeliveredUnder(attempts, i, id) {
        var i :| DeliveredUnder(attempts, i, id);
        assert i != n;
        assert DeliveredUnder(init, i, id);
      }
    }
  }

  /**
   * Every entry maps its id to the URL of the last attempt delivered under
   * that id: an entry holds the meme that its own message carried.
   */
  lemma {:induction false} RecordedValue(attempts: seq<Attempt>, id: string)
    requires id in Recorded(attempts)
    ensures exists i :: DeliveredUnder(attempts, i, id)
                        && Recorded(attempts)[id] == attempts[i].fetched.value
                        && forall j :: i < j < |attempts| ==> !DeliveredUnder(attempts, j, id)
  {
    var n := |attempts| - 1;
    var init := attempts[..n];
    var a := attempts[n];
    if Delivers(a) && a.sentId.value == id {
      assert DeliveredUnder(attempts, n, id);
    } else {
      RecordedValue(init, id);
      var i :| DeliveredUnder(init, i, id)
               && Recorded(init)[id] == init[i].fetched.value
               && forall j :: i < j < |init| ==> !DeliveredUnder(init, j, id);
      assert DeliveredUnder(attempts, i, id);
      assert forall j :: i < j < |attempts| ==> !DeliveredUnder(attempts, j, id) by {
        forall j | i < j < |attempts|
          ensures !DeliveredUnder(attempts, j, id)
        {
          if j < n {
            assert !DeliveredUnder(init, j, id);
          }
        }
      }
    }
  }

  /**
   * An attempt that fails at any step leaves the same store as if it had
   * not been made, so it neither adds an entry nor stops later attempts.
   */
  lemma FailedAttemptIsSkipped(attempts: seq<Attempt>, k: nat)
    requires k < |attempts| && !Delivers(attempts[k])
    ensures Recorded(attempts) == Recorded(attempts[..k] + attempts[k + 1..])
  {
    var pre, post := attempts[..k], attempts[k + 1..];
    assert attempts == pre + [attempts[k]] + post;
    RecordedAppend(pre + [attempts[k]], post);
    assert (pre + [attempts[k]])[..|pre + [attempts[k]]| - 1] == pre;
    RecordedAppend(pre, post);
  }

  /** When the transport hands out distinct ids, there is one entry per delivery. */
  lemma {:induction false} RecordedSize(attempts: seq<Attempt>)
    requires DistinctIds(attempts)
    ensures |Recorded(attempts)| == DeliveredCount(attempts)
  {
    if attempts != [] {
      var n := |attempts| - 1;
      var init := attempts[..n];
      var a := attempts[n];
      assert DistinctIds(init);
      RecordedSize(init);
      if Delivers(a) {
        var id := a.sentId.value;
        RecordedKeys(init, id);
        assert id !in Recorded(init);
      }
    }
  }

  /**
   * The events alternate: a view-once send of a delivered URL to the target
   * group, then the pause. A pause therefore only ever follows a success.
   */
  lemma {:induction false} CycleLogShape(attempts: seq<Attempt>)
    ensures |CycleLog(attempts)| == 2 * DeliveredCount(attempts)
    ensures forall j :: 0 <= j < |CycleLog(attempts)| ==>
              if j % 2 == 0 then CycleLog(attempts)[j].ViewOnceSent? && CycleLog(attempts)[j].chat == TargetGroupId
              else CycleLog(attempts)[j] == Paused(PauseMillis)
  {
    if attempts != [] {
      CycleLogShape(attempts[..|attempts| - 1]);
    }
  }

  /**
   * Each view-once send carries a meme one of the attempts fetched and
   * delivered, and every delivered meme is sent.
   */
  lemma {:induction false} CycleLogSends(attempts: seq<Attempt>, u: string)
    ensures ViewOnceSent(TargetGroupId, u) in CycleLog(attempts) <==>
              exists i :: 0 <= i < |attempts| && Delivers(attempts[i]) && attempts[i].fetched.value == u
  {
    if attempts != [] {
      var n := |attempts| - 1;
      var init := attempts[..n];
      var a := attempts[n];
      CycleLogSends(init, u);
      if exists i :: 0 <= i < |init| && Delivers(init[i]) && init[i].fetched.value == u {
        var i :| 0 <= i < |init| && Delivers(init[i]) && init[i].fetched.value == u;
        assert attempts[i] == init[i];
      }
      if Delivers(a) && a.fetched.value == u {
        assert CycleLog(attempts)[|CycleLog(init)|] == ViewOnceSent(TargetGroupId, u);
      } else if exists i :: 0 <= i < |attempts| && Delivers(attempts[i]) && attempts[i].fetched.value == u {
        var i :| 0 <= i < |attempts| && Delivers(attempts[i]) && attempts[i].fetched.value == u;
        assert i != n;
        assert init[i] == attempts[i];
      }
    }
  }

  /** A delivering attempt of the scenario below, numbered `k`. */
  function Hit(k: char): (a: Attempt)
    ensures Delivers(a) && a.sentId.value == "msg" + [k]
  {
    Attempt(Some("https://meme.example/" + [k]), true, Some("msg" + [k]))
  }

  /** An attempt of the scenario below whose fetch failed. */
  const FetchMiss: Attempt := Attempt(None, true, Some("unused"))

  /** Ten attempts where the third and the seventh fail at the fetch. */
  const ScenarioAttempts: seq<Attempt> :=
    [Hit('0'), Hit('1'), FetchMiss, Hit('3'), Hit('4'), Hit('5'), FetchMiss, Hit('7'), Hit('8'), Hit('9')]

  /** Counting deliveries one attempt at a time. */
  lemma DeliveredCountSnoc(xs: seq<Attempt>, a: Attempt)
    ensures DeliveredCount(xs + [a]) == DeliveredCount(xs) + if Delivers(a) then 1 else 0
  {
  }

  /** Two fetch failures in a blast of ten: eight entries and eight sends. */
  lemma TwoFetchFailuresScenario()
    ensures |ScenarioAttempts| == BatchSize
    ensures |Recorded(ScenarioAttempts)| == 8
    ensures |CycleLog(ScenarioAttempts)| == 16
  {
    var o := ScenarioAttempts;
    assert DistinctIds(o) by {
      forall i, j | 0 <= i < j < |o| && Delivers(o[i]) && Delivers(o[j])
        ensures o[i].sentId.value != o[j].sentId.value
      {
        assert o[i].sentId.value[3] != o[j].sentId.value[3];
      }
    }
    for k := 0 to 10
      invariant DeliveredCount(o[..k]) == if k <= 2 then k else if k <= 6 then k - 1 else k - 2
    {
      assert o[..k + 1] == o[..k] + [o[k]];
      DeliveredCountSnoc(o[..k], o[k]);
    }
    assert o[..10] == o;
    RecordedSize(o);
    CycleLogShape(o);
  }

}
