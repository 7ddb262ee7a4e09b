/** The live side: the process-wide tracked value, the set of connected
    clients, the broadcast that fans the value out, the connection handler's
    register and unregister steps, and the monitor loop that drives it all. */
module Server {
  import opened Wrappers
  import opened Midi
  import opened Scaler
  import opened Tracker

  /** A client connection. */
  datatype Handle = Handle(id: nat)

  /** One attempted delivery of {"crossfader": value} to a client. */
  datatype Send = Send(to: Handle, value: int)

  /** The clients a batch of sends went to. */
  function Recipients(log: seq<Send>): set<Handle>
  {
    set i | 0 <= i < |log| :: log[i].to
  }

  lemma RecipientsNext(log: seq<Send>, x: Send)
    ensures Recipients(log + [x]) == Recipients(log) + {x.to}
  {
    var l := log + [x];
    assert forall i :: 0 <= i < |log| ==> l[i] == log[i];
    assert l[|log|] == x;
  }

  /** One send of value x to each client in cs. */
  function SendsTo(cs: set<Handle>, x: int): set<Send>
  {
    set h | h in cs :: Send(h, x)
  }

  lemma SendsToNext(cs: set<Handle>, c: Handle, x: int)
    requires c !in cs
    ensures multiset(SendsTo(cs + {c}, x)) == multiset(SendsTo(cs, x)) + multiset{Send(c, x)}
  {
    assert SendsTo(cs + {c}, x) == SendsTo(cs, x) + {Send(c, x)};
  }

  /** The client set after a broadcast in which the sends to the handles in
      failing raised: nothing changes for an empty set, otherwise exactly the
      failed handles are dropped. */
  function AfterBroadcast(clients: set<Handle>, failing: set<Handle>): (after: set<Handle>)
    ensures clients == {} ==> after == {}
    ensures after <= clients
    ensures forall h :: h in clients ==> (h in after <==> h !in failing)
  {
    if clients == {} then clients else clients - failing
  }

  /** The handler's cleanup as written: Python's set.remove raises KeyError
      (None here) when the handle is no longer in the set. */
  function RemoveAsWritten(clients: set<Handle>, h: Handle): (r: Option<set<Handle>>)
    ensures r.None? <==> h !in clients
    ensures r.Some? ==> h !in r.value && r.value + {h} == clients
  {
    if h in clients then Some(clients - {h}) else None
  }

  /** The cleanup with the evidently intended semantics of set.discard: the
      handle is gone afterwards and every other handle keeps its membership. */
  function Unregister(clients: set<Handle>, h: Handle): (r: set<Handle>)
    ensures h !in r
    ensures forall g :: g != h ==> (g in r <==> g in clients)
  {
    clients - {h}
  }

  /** A registered client whose send fails during a broadcast is removed by
      the broadcast; the handler's cleanup as written then raises. */
  lemma CleanupAfterFailedSendRaises(clients: set<Handle>, h: Handle, failing: set<Handle>)
    requires h in failing
    ensures RemoveAsWritten(AfterBroadcast(clients + {h}, failing), h) == None
  {
  }

  /** With the intended cleanup the two removals commute: whether the
      broadcast or the handler removes the handle first, the set ends the
      same and never holds it. */
  lemma CleanupCommutesWithBroadcast(clients: set<Handle>, h: Handle, failing: set<Handle>)
    ensures Unregister(AfterBroadcast(clients, failing), h) == AfterBroadcast(Unregister(clients, h), failing)
    ensures h !in Unregister(AfterBroadcast(clients, failing), h)
  {
    var a, b := Unregister(AfterBroadcast(clients, failing), h), AfterBroadcast(Unregister(clients, h), failing);
    forall g ensures g in a <==> g in b {
      if g != h && g in clients {
        assert g in Unregister(clients, h);
      }
    }
  }

  /** The client set after the monitor handles the messages, where failing[i]
      holds the handles whose send would fail in a broadcast caused by
      message i. */
  function ClientsAfter(clients: set<Handle>, s: TrackerState, control: int,
                        es: seq<Message>, failing: seq<set<Handle>>): (r: set<Handle>)
    requires |failing| == |es|
    ensures r <= clients
  {
    if es == [] then clients
    else
      var n := |es| - 1;
      var before := ClientsAfter(clients, s, control, es[..n], failing[..n]);
      if Fires(Run(s, control, es[..n]), control, es[n]) then AfterBroadcast(before, failing[n]) else before
  }

  /** The sends a monitor run attempts, as a multiset: for every message that
      causes a broadcast, one send of its scaled value to each client in the
      set at that moment. */
  function ExpectedSends(clients: set<Handle>, s: TrackerState, control: int,
                         es: seq<Message>, failing: seq<set<Handle>>): multiset<Send>
    requires |failing| == |es|
  {
    if es == [] then multiset{}
    else
      var n := |es| - 1;
      ExpectedSends(clients, s, control, es[..n], failing[..n]) +
        if Fires(Run(s, control, es[..n]), control, es[n])
        then multiset(SendsTo(ClientsAfter(clients, s, control, es[..n], failing[..n]), Scale(es[n].value)))
        else multiset{}
  }

  /** Every send of a monitor run carries a broadcast value and goes to a
      client that was connected when the run began. */
  lemma {:induction false} ExpectedSendsFromBroadcasts(clients: set<Handle>, s: TrackerState, control: int,
                                                      es: seq<Message>, failing: seq<set<Handle>>)
    requires |failing| == |es|
    ensures forall d :: d in ExpectedSends(clients, s, control, es, failing) ==>
      d.value in Broadcasts(s, control, es) && d.to in clients
  {
    if es != [] {
      var n := |es| - 1;
      ExpectedSendsFromBroadcasts(clients, s, control, es[..n], failing[..n]);
    }
  }

  /** Message i of the monitored sequence caused a broadcast in which the
      send to h failed. */
  ghost predicate DroppedBy(s: TrackerState, control: int, es: seq<Message>, failing: seq<set<Handle>>,
                            i: int, h: Handle)
    requires |failing| == |es|
  {
    0 <= i < |es| && Fires(Run(s, control, es[..i]), control, es[i]) && h in failing[i]
  }

  /** While the monitor runs, a client leaves the set exactly when a send to
      it failed in one of the broadcasts. */
  lemma {:induction false} ClientsDroppedOnlyOnFailure(clients: set<Handle>, s: TrackerState, control: int,
                                                      es: seq<Message>, failing: seq<set<Handle>>, h: Handle)
    requires |failing| == |es|
    ensures ClientsAfter(clients, s, control, es, failing) <= clients
    ensures h in clients ==>
      (h !in ClientsAfter(clients, s, control, es, failing) <==> exists i :: DroppedBy(s, control, es, failing, i, h))
  {
    if es != [] {
      var n := |es| - 1;
      var init, finit := es[..n], failing[..n];
      ClientsDroppedOnlyOnFailure(clients, s, control, init, finit, h);
      forall i | 0 <= i < n
        ensures DroppedBy(s, control, es, failing, i, h) == DroppedBy(s, control, init, finit, i, h)
      {
        assert init[..i] == es[..i];
      }
      assert (exists i :: DroppedBy(s, control, es, failing, i, h)) <==>
        (exists i :: DroppedBy(s, control, init, finit, i, h)) || DroppedBy(s, control, es, failing, n, h);
    }
  }

  /** The state of broadcast_value's loop: the handles in done have been
      tried, the failed ones among them collected, and batch logs one send of
      the message to each of them. */
  ghost predicate SendAllInv(all: set<Handle>, failing: set<Handle>, message: int, pending: set<Handle>,
                             done: set<Handle>, disconnected: set<Handle>, batch: seq<Send>)
  {
    && done + pending == all && done !! pending
    && disconnected == done * failing
    && Recipients(batch) == done && |batch| == |done|
    && (forall i :: 0 <= i < |batch| ==> batch[i].value == message)
    && multiset(batch) == multiset(SendsTo(done, message))
  }

  /** Trying one more client keeps the loop's state consistent. */
  lemma SendAllStep(all: set<Handle>, failing: set<Handle>, message: int, pending: set<Handle>,
                    done: set<Handle>, disconnected: set<Handle>, batch: seq<Send>, c: Handle)
    requires SendAllInv(all, failing, message, pending, done, disconnected, batch)
    requires c in pending
    ensures SendAllInv(all, failing, message, pending - {c}, done + {c},
                       if c in failing then disconnected + {c} else disconnected, batch + [Send(c, message)])
  {
    RecipientsNext(batch, Send(c, message));
    SendsToNext(done, c, message);
  }

  /** The loop of broadcast_value: attempt a send to every client, in any
      order, and collect the ones whose send failed. The attempted sends are
      returned as a ghost log. */
  method SendAll(all: set<Handle>, failing: set<Handle>, message: int)
    returns (disconnected: set<Handle>, ghost batch: seq<Send>)
    ensures disconnected == all * failing
    ensures Recipients(batch) == all && |batch| == |all|
    ensures forall i :: 0 <= i < |batch| ==> batch[i].value == message
    ensures multiset(batch) == multiset(SendsTo(all, message))
  {
    disconnected, batch := {}, [];
    var pending := all;
    ghost var done: set<Handle> := {};
    while pending != {}
      invariant SendAllInv(all, failing, message, pending, done, disconnected, batch)
      decreases |pending|
    {
      var client :| client in pending;
      SendAllStep(all, failing, message, pending, done, disconnected, batch, client);
      batch := batch + [Send(client, message)];
      if client in failing {
        disconnected := disconnected + {client};
      }
      pending := pending - {client};
      done := done + {client};
    }
  }

  /** What the monitor loop has produced after the first i messages: the
      tracker state, the client set, the broadcast values and the sends. */
  ghost predicate MonitorInv(clients: set<Handle>, s: TrackerState, control: int,
                             es: seq<Message>, failing: seq<set<Handle>>, i: nat,
                             st: TrackerState, cs: set<Handle>, broadcasts: seq<int>, sends: multiset<Send>)
    requires |failing| == |es| && i <= |es|
  {
    && st == Run(s, control, es[..i])
    && cs == ClientsAfter(clients, s, control, es[..i], failing[..i])
    && broadcasts == Broadcasts(s, control, es[..i])
    && sends == ExpectedSends(clients, s, control, es[..i], failing[..i])
  }

  /** Handling message i as the loop body does extends the specification by
      that message. */
  lemma MonitorStep(clients: set<Handle>, s: TrackerState, control: int,
                    es: seq<Message>, failing: seq<set<Handle>>, i: nat,
                    st: TrackerState, cs: set<Handle>, broadcasts: seq<int>, sends: multiset<Send>,
                    st': TrackerState, cs': set<Handle>, broadcasts': seq<int>, sends': multiset<Send>)
    requires |failing| == |es| && i < |es|
    requires MonitorInv(clients, s, control, es, failing, i, st, cs, broadcasts, sends)
    requires st' == Step(st, control, es[i])
    requires Fires(st, control, es[i]) ==>
      && broadcasts' == broadcasts + [Scale(es[i].value)]
      && cs' == AfterBroadcast(cs, failing[i])
      && sends' == sends + multiset(SendsTo(cs, Scale(es[i].value)))
    requires !Fires(st, control, es[i]) ==> broadcasts' == broadcasts && cs' == cs && sends' == sends
    ensures MonitorInv(clients, s, control, es, failing, i + 1, st', cs', broadcasts', sends')
  {
    assert es[..i + 1][..i] == es[..i] && failing[..i + 1][..i] == failing[..i];
  }

  /** The process-wide state of the monitor: the tracked value, the value last
      broadcast, and the set of connected clients. */
  class Hub {
    var currentValue: int
    var previousValue: int
    var clients: set<Handle>
    /** The value of every broadcast_value call, in order. */
    ghost var notified: seq<int>
    /** Every attempted send, in order. */
    ghost var sent: seq<Send>

    /** Start-up: both values 0, no clients. */
    constructor ()
      ensures currentValue == 0 && previousValue == 0 && clients == {}
      ensures notified == [] && sent == []
    {
      currentValue, previousValue, clients := 0, 0, {};
      notified, sent := [], [];
    }

    function State(): TrackerState
      reads this
    {
      TrackerState(currentValue, previousValue)
    }

    /** broadcast_value: send the current value to every client, collect the
        ones whose send failed, then drop them all at once. */
    method Broadcast(failing: set<Handle>)
      modifies this`clients, this`notified, this`sent
      ensures clients == AfterBroadcast(old(clients), failing)
      ensures currentValue == old(currentValue) && previousValue == old(previousValue)
      ensures notified == old(notified) + [currentValue]
      ensures old(clients) == {} ==> sent == old(sent)
      ensures |sent| == |old(sent)| + |old(clients)| && sent[..|old(sent)|] == old(sent)
      ensures Recipients(sent[|old(sent)|..]) == old(clients)
      ensures forall i :: |old(sent)| <= i < |sent| ==> sent[i].value == currentValue
      ensures multiset(sent[|old(sent)|..]) == multiset(SendsTo(old(clients), currentValue))
    {
      notified := notified + [currentValue];
      if clients == {} {
        return;
      }
      var message := currentValue;
      var disconnected, batch := SendAll(clients, failing, message);
      sent := sent + batch;
      assert sent[|old(sent)|..] == batch;
      clients := clients - disconnected;
    }

    /** websocket_handler on accept: register the handle, then send it the
        current value. */
    method Connect(h: Handle)
      modifies this
      ensures clients == old(clients) + {h}
      ensures sent == old(sent) + [Send(h, currentValue)]
      ensures currentValue == old(currentValue) && previousValue == old(previousValue)
      ensures notified == old(notified)
    {
      clients := clients + {h};
      sent := sent + [Send(h, currentValue)];
    }

    /** websocket_handler's cleanup when the connection ends, however it
        ends; uses the intended discard semantics (see RemoveAsWritten). */
    method Disconnect(h: Handle)
      modifies this
      ensures clients == Unregister(old(clients), h)
      ensures currentValue == old(currentValue) && previousValue == old(previousValue)
      ensures notified == old(notified) && sent == old(sent)
    {
      clients := clients - {h};
    }

    /** The body of midi_monitor's loop for one message: a control change of
        the watched control sets the current value to its scaled value and,
        when that differs from the previous value, broadcasts it and then
        records it as the previous value. */
    method HandleMessage(control: int, message: Message, failing: set<Handle>)
      modifies this
      ensures State() == Step(old(State()), control, message)
      ensures |old(sent)| <= |sent| && sent[..|old(sent)|] == old(sent)
      ensures Fires(old(State()), control, message) ==>
        && notified == old(notified) + [Scale(message.value)]
        && clients == AfterBroadcast(old(clients), failing)
        && multiset(sent[|old(sent)|..]) == multiset(SendsTo(old(clients), Scale(message.value)))
      ensures !Fires(old(State()), control, message) ==>
        notified == old(notified) && clients == old(clients) && sent == old(sent)
    {
      if message.ControlChange? && message.control == control {
        currentValue := Scale(message.value);
        if currentValue != previousValue {
          Broadcast(failing);
          previousValue := currentValue;
        }
      }
    }

    /** midi_monitor's loop over the drained messages. failing[i] is the
        outcome of the sends of a broadcast caused by message i. */
    method Monitor(control: int, messages: seq<Message>, failing: seq<set<Handle>>)
      requires |failing| == |messages|
      modifies this
      ensures State() == Run(old(State()), control, messages)
      ensures notified == old(notified) + Broadcasts(old(State()), control, messages)
      ensures clients == ClientsAfter(old(clients), old(State()), control, messages, failing)
      ensures |old(sent)| <= |sent| && sent[..|old(sent)|] == old(sent)
      ensures multiset(sent[|old(sent)|..]) == ExpectedSends(old(clients), old(State()), control, messages, failing)
    {
      ghost var s0, c0, n0, log0 := State(), clients, notified, sent;
      var i := 0;
      while i < |messages|
        invariant 0 <= i <= |messages|
        invariant |n0| <= |notified| && notified[..|n0|] == n0
        invariant |log0| <= |sent| && sent[..|log0|] == log0
        invariant MonitorInv(c0, s0, control, messages, failing, i,
                             State(), clients, notified[|n0|..], multiset(sent[|log0|..]))
      {
        ghost var st, cs, nb, se := State(), clients, notified, sent;
        HandleMessage(control, messages[i], failing[i]);
        assert notified[|n0|..] == nb[|n0|..] + notified[|nb|..];
        assert sent[|log0|..] == se[|log0|..] + sent[|se|..];
        MonitorStep(c0, s0, control, messages, failing, i,
                    st, cs, nb[|n0|..], multiset(se[|log0|..]),
                    State(), clients, notified[|n0|..], multiset(sent[|log0|..]));
        i := i + 1;
      }
      assert messages[..i] == messages && failing[..i] == failing;
    }
  }
}
