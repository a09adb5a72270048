/**
 * The send-confirmation registry (src/services/NotificationService.ts): an
 * ordered list of subscriber callbacks, the unsubscribe filter, and the
 * fan-out of one confirmation per send. Callbacks are opaque handles compared
 * by identity; their invocations are recorded in a trace.
 */
module Notifications {
  import opened Wrappers
  import opened Messages
  import opened JsArray

  /** A subscriber callback; two handles are the same callback exactly when they are equal. */
  datatype Callback = Callback(handle: nat)

  /** One invocation of a callback with a confirmation. */
  datatype Delivery = Delivery(callback: Callback, confirmation: SendConfirmation)

  /** The confirmation for a message sent at `now`. */
  function Confirmation(message: BikeMessage, now: int): (c: SendConfirmation)
    ensures c.messageId == message.id && c.messageText == message.text && c.timestamp == now
  {
    SendConfirmation(message.id, message.text, now)
  }

  /** `listeners.forEach(callback => callback(confirmation))`, as the deliveries it makes. */
  function Fanout(listeners: seq<Callback>, c: SendConfirmation): seq<Delivery> {
    if |listeners| == 0 then [] else [Delivery(listeners[0], c)] + Fanout(listeners[1..], c)
  }

  /**
   * The fan-out calls each registered callback once per registration, in
   * registration order, all with the same confirmation; it splits along the
   * listener list.
   */
  lemma {:induction false} FanoutSpec(listeners: seq<Callback>, more: seq<Callback>, c: SendConfirmation)
    ensures |Fanout(listeners, c)| == |listeners|
    ensures forall i :: 0 <= i < |listeners| ==> Fanout(listeners, c)[i] == Delivery(listeners[i], c)
    ensures Fanout(listeners + more, c) == Fanout(listeners, c) + Fanout(more, c)
  {
    if |listeners| > 0 {
      FanoutSpec(listeners[1..], more, c);
      assert (listeners + more)[1..] == listeners[1..] + more;
    } else {
      assert listeners + more == more;
    }
  }

  /**
   * Which callbacks throw when called with the confirmation at hand: the
   * callbacks are code the registry cannot see, so their outcome is a parameter.
   */
  type Throws = Callback -> bool

  /** Callbacks that all return normally. */
  const NONE_THROW: Throws := (cb: Callback) => false

  /**
   * The position of the first listener that throws, or the list's length
   * when none does: `forEach` stops there, and the send rejects.
   */
  function FirstThrower(listeners: seq<Callback>, throws: Throws): (k: nat)
    ensures k <= |listeners|
    ensures forall i :: 0 <= i < k ==> !throws(listeners[i])
    ensures k < |listeners| ==> throws(listeners[k])
  {
    if |listeners| == 0 then 0
    else if throws(listeners[0]) then 0
    else 1 + FirstThrower(listeners[1..], throws)
  }

  /** When no callback throws, `forEach` reaches the end of the list. */
  lemma NoneThrowReachesEnd(listeners: seq<Callback>)
    ensures FirstThrower(listeners, NONE_THROW) == |listeners|
  {
  }

  /** The test `cb => cb !== callback`. */
  function IsNot(callback: Callback): Callback -> bool {
    (cb: Callback) => cb != callback
  }

  /**
   * Unsubscribing removes every registration of the callback, keeps the
   * other registrations in order and with their multiplicity, and a second
   * unsubscribe changes nothing. Subscribing and then unsubscribing leaves
   * the same list as unsubscribing alone, which is the original list when
   * the callback was not registered before.
   */
  lemma UnsubscribeSpec(listeners: seq<Callback>, callback: Callback)
    ensures callback !in Filter(listeners, IsNot(callback))
    ensures forall cb :: cb != callback ==>
              multiset(Filter(listeners, IsNot(callback)))[cb] == multiset(listeners)[cb]
    ensures Filter(Filter(listeners, IsNot(callback)), IsNot(callback)) == Filter(listeners, IsNot(callback))
    ensures Filter(listeners + [callback], IsNot(callback)) == Filter(listeners, IsNot(callback))
    ensures callback !in listeners ==> Filter(listeners, IsNot(callback)) == listeners
  {
    FilterMembers(listeners, IsNot(callback));
    FilterIdempotent(listeners, IsNot(callback));
    FilterAppend(listeners, [callback], IsNot(callback));
    FilterSingleton(callback, IsNot(callback));
    if callback !in listeners {
      FilterKeepsAll(listeners, IsNot(callback));
    }
  }

  /**
   * The service's listener list and, as the observable effect of the
   * callbacks, the trace of every delivery made so far.
   */
  class NotificationService {
    var listeners: seq<Callback>
    var delivered: seq<Delivery>

    constructor ()
      ensures listeners == [] && delivered == []
    {
      listeners := [];
      delivered := [];
    }

    /**
     * sendMessage: builds the confirmation from the message and the clock and
     * hands it to the listeners in order. When every listener returns, the
     * send resolves to the confirmation; the first listener that throws is the
     * last one called, and the send rejects with that listener's error. The
     * listener list never changes.
     */
    method SendMessage(message: BikeMessage, now: int, throws: Throws) returns (r: Result<SendConfirmation, Callback>)
      modifies this
      ensures listeners == old(listeners)
      ensures var c := Confirmation(message, now);
              var k := FirstThrower(listeners, throws);
              if k == |listeners| then
                r == Success(c) && delivered == old(delivered) + Fanout(listeners, c)
              else
                r == Failure(listeners[k]) && delivered == old(delivered) + Fanout(listeners[..k + 1], c)
    {
      var c := Confirmation(message, now);
      var i := 0;
      while i < |listeners|
        invariant 0 <= i <= |listeners|
        invariant listeners == old(listeners)
        invariant forall j :: 0 <= j < i ==> !throws(listeners[j])
        invariant delivered == old(delivered) + Fanout(listeners[..i], c)
      {
        FanoutSpec(listeners[..i], [listeners[i]], c);
        assert listeners[..i + 1] == listeners[..i] + [listeners[i]];
        assert Fanout([listeners[i]], c) == [Delivery(listeners[i], c)] by {
          assert [listeners[i]][1..] == [];
        }
        delivered := delivered + [Delivery(listeners[i], c)];
        if throws(listeners[i]) {
          return Failure(listeners[i]);
        }
        i := i + 1;
      }
      assert listeners[..i] == listeners;
      r := Success(c);
    }

    /** onMessageSent: registers the callback at the end of the list. */
    method OnMessageSent(callback: Callback)
      modifies this
      ensures listeners == old(listeners) + [callback]
      ensures delivered == old(delivered)
    {
      listeners := listeners + [callback];
    }

    /** The function onMessageSent returns: drop every registration of the callback. */
    method Unsubscribe(callback: Callback)
      modifies this
      ensures listeners == Filter(old(listeners), IsNot(callback))
      ensures delivered == old(delivered)
    {
      listeners := Filter(listeners, IsNot(callback));
    }

    /** removeAllListeners. */
    method RemoveAllListeners()
      modifies this
      ensures listeners == []
      ensures delivered == old(delivered)
    {
      listeners := [];
    }
  }

  /**
   * Subscribing a fresh callback, sending, unsubscribing and sending again:
   * the callback hears the first send only, and the list is back as before.
   */
  method SubscribeSendUnsubscribe(s: NotificationService, callback: Callback, message: BikeMessage, t1: int, t2: int)
    requires callback !in s.listeners
    modifies s
    ensures s.listeners == old(s.listeners)
    ensures |old(s.delivered)| <= |s.delivered|
    ensures Delivery(callback, Confirmation(message, t1)) in s.delivered[|old(s.delivered)|..]
    ensures forall d :: d in s.delivered[|old(s.delivered)|..] && d.callback == callback ==>
              d.confirmation.timestamp == t1
  {
    ghost var before := s.listeners;
    ghost var start := |s.delivered|;
    s.OnMessageSent(callback);
    NoneThrowReachesEnd(s.listeners);
    var r1 := s.SendMessage(message, t1, NONE_THROW);
    var c1 := Confirmation(message, t1);
    assert s.delivered == old(s.delivered) + Fanout(before + [callback], c1);
    FanoutSpec(before + [callback], [], c1);
    assert s.delivered[start..] == Fanout(before + [callback], c1);
    assert s.delivered[start..][|before|] == Delivery(callback, c1);
    s.Unsubscribe(callback);
    UnsubscribeSpec(before, callback);
    NoneThrowReachesEnd(s.listeners);
    ghost var mid := s.delivered;
    var r2 := s.SendMessage(message, t2, NONE_THROW);
    var c2 := Confirmation(message, t2);
    assert s.delivered == mid + Fanout(before, c2);
    FanoutSpec(before, [], c2);
    assert s.delivered[start..] == Fanout(before + [callback], c1) + Fanout(before, c2);
    forall d | d in Fanout(before, c2) ensures d.callback in before {
      var i :| 0 <= i < |Fanout(before, c2)| && Fanout(before, c2)[i] == d;
    }
    forall d | d in Fanout(before + [callback], c1) ensures d.confirmation == c1 {
      var i :| 0 <= i < |Fanout(before + [callback], c1)| && Fanout(before + [callback], c1)[i] == d;
    }
  }
}
