/** The value-level meaning of the monitor loop: which messages change the
    tracked value and which of them cause a broadcast. */
module Tracker {
  import opened Wrappers
  import opened Midi
  import opened Scaler

  /** The two process-wide values the monitor keeps: the last scaled value and
      the last value for which a broadcast completed. */
  datatype TrackerState = TrackerState(current: int, previous: int)

  /** The monitor acts only on control changes of the watched control. */
  predicate Watched(control: int, m: Message)
  {
    m.ControlChange? && m.control == control
  }

  /** Handling m broadcasts when its scaled value differs from the previous one. */
  predicate Fires(s: TrackerState, control: int, m: Message)
  {
    Watched(control, m) && Scale(m.value) != s.previous
  }

  /** One message: current takes the scaled value; previous catches up with it
      after a broadcast. */
  function Step(s: TrackerState, control: int, m: Message): (r: TrackerState)
    ensures r.current == if Watched(control, m) then Scale(m.value) else s.current
    ensures r.previous == if Fires(s, control, m) then Scale(m.value) else s.previous
  {
    if !Watched(control, m) then s
    else
      var v := Scale(m.value);
      TrackerState(v, if v != s.previous then v else s.previous)
  }

  /** The state after handling the messages in arrival order. */
  function Run(s: TrackerState, control: int, es: seq<Message>): (r: TrackerState)
    ensures r == s || r.current == r.previous
  {
    if es == [] then s else Step(Run(s, control, es[..|es| - 1]), control, es[|es| - 1])
  }

  /** The values broadcast while handling the messages, in order. */
  function Broadcasts(s: TrackerState, control: int, es: seq<Message>): (r: seq<int>)
    ensures |r| <= |es|
  {
    if es == [] then []
    else
      var init, m := es[..|es| - 1], es[|es| - 1];
      Broadcasts(s, control, init) + (if Fires(Run(s, control, init), control, m) then [Scale(m.value)] else [])
  }

  /** The watched messages only. */
  function WatchedOnly(control: int, es: seq<Message>): (ws: seq<Message>)
    ensures forall i :: 0 <= i < |ws| ==> Watched(control, ws[i])
  {
    if es == [] then []
    else WatchedOnly(control, es[..|es| - 1]) + (if Watched(control, es[|es| - 1]) then [es[|es| - 1]] else [])
  }

  /** The scaled value of the last watched message, if any. */
  function LastScaled(control: int, es: seq<Message>): Option<int>
  {
    if es == [] then None
    else if Watched(control, es[|es| - 1]) then Some(Scale(es[|es| - 1].value))
    else LastScaled(control, es[..|es| - 1])
  }

  /** current and previous stay equal between messages when they start equal,
      as both are 0 at start-up; comparing against previous is then the same as
      comparing against current. */
  lemma {:induction false} RunKeepsInSync(s: TrackerState, control: int, es: seq<Message>)
    requires s.current == s.previous
    ensures Run(s, control, es).current == Run(s, control, es).previous
  {
    if es != [] {
      RunKeepsInSync(s, control, es[..|es| - 1]);
    }
  }

  /** The tracked value ends as the scaled value of the last watched message,
      or as it was when no message was watched. */
  lemma {:induction false} RunFollowsLastWatched(s: TrackerState, control: int, es: seq<Message>)
    ensures Run(s, control, es) == match LastScaled(control, es)
      case None => s
      case Some(v) => TrackerState(v, v)
  {
    if es != [] {
      RunFollowsLastWatched(s, control, es[..|es| - 1]);
    }
  }

  /** previous is always the last value broadcast, or its start value when
      nothing was broadcast: clients last heard the value the monitor holds. */
  lemma {:induction false} PreviousIsLastBroadcast(s: TrackerState, control: int, es: seq<Message>)
    ensures var b := Broadcasts(s, control, es);
      Run(s, control, es).previous == if b == [] then s.previous else b[|b| - 1]
  {
    if es != [] {
      PreviousIsLastBroadcast(s, control, es[..|es| - 1]);
    }
  }

  /** No broadcast repeats the value before it: the first differs from the
      start value of previous, each later one from the one before. */
  lemma {:induction false} BroadcastsNeverRepeat(s: TrackerState, control: int, es: seq<Message>)
    ensures Broadcasts(s, control, es) != [] ==> Broadcasts(s, control, es)[0] != s.previous
    ensures forall i :: 0 < i < |Broadcasts(s, control, es)| ==>
      Broadcasts(s, control, es)[i] != Broadcasts(s, control, es)[i - 1]
  {
    if es != [] {
      var init, m := es[..|es| - 1], es[|es| - 1];
      BroadcastsNeverRepeat(s, control, init);
      PreviousIsLastBroadcast(s, control, init);
      var bi := Broadcasts(s, control, init);
      if Fires(Run(s, control, init), control, m) {
        var b := bi + [Scale(m.value)];
        assert Broadcasts(s, control, es) == b;
        forall i | 0 < i < |b|
          ensures b[i] != b[i - 1]
        {
          if i < |bi| {
            assert b[i] == bi[i] && b[i - 1] == bi[i - 1];
          }
        }
      }
    }
  }

  /** Every broadcast value is the scaled value of some watched message. */
  lemma {:induction false} BroadcastsComeFromWatched(s: TrackerState, control: int, es: seq<Message>)
    ensures forall x :: x in Broadcasts(s, control, es) ==>
      exists j :: 0 <= j < |es| && Watched(control, es[j]) && Scale(es[j].value) == x
  {
    if es != [] {
      var init := es[..|es| - 1];
      BroadcastsComeFromWatched(s, control, init);
      forall x | x in Broadcasts(s, control, es)
        ensures exists j :: 0 <= j < |es| && Watched(control, es[j]) && Scale(es[j].value) == x
      {
        if x in Broadcasts(s, control, init) {
          var j :| 0 <= j < |init| && Watched(control, init[j]) && Scale(init[j].value) == x;
          assert es[j] == init[j];
        } else {
          assert Watched(control, es[|es| - 1]) && Scale(es[|es| - 1].value) == x;
        }
      }
    }
  }

  /** A run of watched messages that all scale to x broadcasts at most once,
      and only x; not at all when previous already was x (so a first value of
      0 after start-up is never broadcast). */
  lemma {:induction false} SameValueAtMostOnce(s: TrackerState, control: int, es: seq<Message>, x: int)
    requires forall j :: 0 <= j < |es| && Watched(control, es[j]) ==> Scale(es[j].value) == x
    ensures Broadcasts(s, control, es) == [] || Broadcasts(s, control, es) == [x]
    ensures s.previous == x ==> Broadcasts(s, control, es) == []
  {
    if es != [] {
      var init := es[..|es| - 1];
      SameValueAtMostOnce(s, control, init, x);
      PreviousIsLastBroadcast(s, control, init);
    }
  }

  /** Messages other than the watched control's control changes affect
      neither the state nor the broadcasts. */
  lemma {:induction false} OthersIgnored(s: TrackerState, control: int, es: seq<Message>)
    ensures Run(s, control, es) == Run(s, control, WatchedOnly(control, es))
    ensures Broadcasts(s, control, es) == Broadcasts(s, control, WatchedOnly(control, es))
  {
    if es != [] {
      var init, m := es[..|es| - 1], es[|es| - 1];
      OthersIgnored(s, control, init);
      if Watched(control, m) {
        var ws := WatchedOnly(control, init);
        assert WatchedOnly(control, es) == ws + [m];
        assert (ws + [m])[..|ws|] == ws;
        assert Run(s, control, ws + [m]) == Step(Run(s, control, ws), control, m);
        assert Broadcasts(s, control, ws + [m]) ==
          Broadcasts(s, control, ws) + (if Fires(Run(s, control, ws), control, m) then [Scale(m.value)] else []);
      } else {
        assert WatchedOnly(control, es) == WatchedOnly(control, init);
      }
    }
  }
}
