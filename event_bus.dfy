/** The in-process publish/subscribe bus: each topic has an ordered list of
    callbacks; publishing delivers the data to a snapshot of that list in
    order, and a callback that raises is logged and skipped over.
    Callbacks are identities; whether one raises on given data is an
    outcome oracle passed to `Publish`. */
module Bus {
  import opened Data

  /** The identity of a subscribed callable (Python compares them with `==`). */
  type Callback = nat

  /** One invocation made by `Publish`: the callback, the data it was given,
      and whether it raised. */
  datatype Delivery = Delivery(callback: Callback, data: Value, raised: bool)

  /** What delivering `data` to the callbacks `subs` in order records: each
      callback once, in order, with the same data and its own outcome. */
  function Deliver(subs: seq<Callback>, data: Value, raises: (Callback, Value) -> bool): (log: seq<Delivery>)
    ensures |log| == |subs|
    ensures forall i :: 0 <= i < |subs| ==> log[i] == Delivery(subs[i], data, raises(subs[i], data))
  {
    if subs == [] then [] else [Delivery(subs[0], data, raises(subs[0], data))] + Deliver(subs[1..], data, raises)
  }

  /** The list of `topic` in a subscriber table; an absent topic has none. */
  function ListOf(table: map<string, seq<Callback>>, topic: string): seq<Callback> {
    if topic in table then table[topic] else []
  }

  /** The position of the first occurrence of `c` in `s`. */
  function IndexOf(s: seq<Callback>, c: Callback): (i: nat)
    requires c in s
    ensures i < |s| && s[i] == c && c !in s[..i]
  {
    if s[0] == c then 0 else 1 + IndexOf(s[1..], c)
  }

  /** `list.remove(c)` guarded by `c in list`: drops the first occurrence only. */
  function RemoveFirst(s: seq<Callback>, c: Callback): seq<Callback> {
    if c in s then s[..IndexOf(s, c)] + s[IndexOf(s, c) + 1..] else s
  }

  /** Removing a present callback shortens the list by one and takes exactly
      one copy of it out; removing an absent one changes nothing. */
  lemma RemoveFirstSpec(s: seq<Callback>, c: Callback)
    ensures c in s ==> |RemoveFirst(s, c)| == |s| - 1
    ensures c in s ==> multiset(RemoveFirst(s, c)) == multiset(s) - multiset{c}
    ensures c !in s ==> RemoveFirst(s, c) == s
  {
    if c in s {
      var i := IndexOf(s, c);
      assert s == s[..i] + [c] + s[i + 1..];
      calc {
        multiset(s);
        multiset(s[..i]) + multiset{c} + multiset(s[i + 1..]);
        multiset(RemoveFirst(s, c)) + multiset{c};
      }
    }
  }

  /** Subscribing a callback and then unsubscribing it leaves the topic with
      as many subscribers as before, and with the very same list when the
      callback was not subscribed already. */
  lemma SubscribeThenUnsubscribe(s: seq<Callback>, c: Callback)
    ensures |RemoveFirst(s + [c], c)| == |s|
    ensures c !in s ==> RemoveFirst(s + [c], c) == s
  {
    assert c in s + [c];
    RemoveFirstSpec(s + [c], c);
    if c !in s {
      var i := IndexOf(s + [c], c);
      assert (s + [c])[|s|] == c;
      assert forall j :: 0 <= j < |s| ==> (s + [c])[j] == s[j];
      assert i == |s|;
      assert (s + [c])[..|s|] == s;
    }
  }

  class EventBus {
    /** `_subscribers`; a topic that is absent has no subscribers. */
    var subscribers: map<string, seq<Callback>>

    function Subscribers(topic: string): seq<Callback>
      reads this
    {
      ListOf(subscribers, topic)
    }

    constructor ()
      ensures forall topic :: Subscribers(topic) == []
    {
      subscribers := map[];
    }

    /** `subscribe`: append, duplicates allowed. */
    method Subscribe(topic: string, callback: Callback)
      modifies this
      ensures Subscribers(topic) == old(Subscribers(topic)) + [callback]
      ensures forall t :: t != topic ==> Subscribers(t) == old(Subscribers(t))
    {
      subscribers := subscribers[topic := Subscribers(topic) + [callback]];
    }

    /** `unsubscribe`: remove the first occurrence when present. */
    method Unsubscribe(topic: string, callback: Callback)
      modifies this
      ensures Subscribers(topic) == RemoveFirst(old(Subscribers(topic)), callback)
      ensures forall t :: t != topic ==> Subscribers(t) == old(Subscribers(t))
    {
      var list := Subscribers(topic);
      if callback in list {
        subscribers := subscribers[topic := RemoveFirst(list, callback)];
      }
    }

    /** `publish`: every callback of the pre-publish snapshot is invoked once,
        in subscription order, with the same data; one that raises does not
        stop the ones after it, and publishing itself never fails, given
        that every callback has a `__name__` for the error message. */
    method Publish(topic: string, data: Value, raises: (Callback, Value) -> bool) returns (log: seq<Delivery>)
      ensures |log| == |Subscribers(topic)|
      ensures forall i :: 0 <= i < |log| ==>
                log[i] == Delivery(Subscribers(topic)[i], data, raises(Subscribers(topic)[i], data))
    ensures log == Deliver(Subscribers(topic), data, raises)
    {
      var snapshot := Subscribers(topic);
      log := [];
      var i := 0;
      while i < |snapshot|
        invariant 0 <= i <= |snapshot|
        invariant |log| == i
        invariant forall j :: 0 <= j < i ==> log[j] == Delivery(snapshot[j], data, raises(snapshot[j], data))
      {
        var callback := snapshot[i];
        var raised := raises(callback, data);
        // a raising callback is logged; delivery goes on with the next one
        log := log + [Delivery(callback, data, raised)];
        i := i + 1;
      }
    }

    /** `clear`: a non-empty topic name clears that topic; None or "" clears
        every topic. */
    method Clear(topic: Option<string>)
      modifies this
      ensures topic.Some? && topic.value != "" ==>
                Subscribers(topic.value) == [] &&
                forall t :: t != topic.value ==> Subscribers(t) == old(Subscribers(t))
      ensures topic.None? || topic.value == "" ==> forall t :: Subscribers(t) == []
    {
      if topic.Some? && topic.value != "" {
        subscribers := subscribers[topic.value := []];
      } else {
        subscribers := map[];
      }
    }

    /** `get_subscriber_count`: the length of the topic's list, 0 for a topic
        never subscribed to. */
    method GetSubscriberCount(topic: string) returns (n: nat)
      ensures n == |Subscribers(topic)|
      ensures topic !in subscribers ==> n == 0
    {
      n := |Subscribers(topic)|;
    }
  }
}
