/** Learn mode: watch the port for a bounded window, summarise every control
    that moved, keep the ones that swept a wide range often enough, and let the
    operator pick one of them. */
module Learn {
  import opened Wrappers
  import opened Midi

  /** Poll ticks in the observation window: 500 ticks of 10 ms, five seconds. */
  const WindowTicks := 500
  /** A significant control spans more than this many raw steps ... */
  const MinRange := 20
  /** ... and reported more than this many changes. */
  const MinChanges := 5

  /** The running summary of one control: smallest and largest raw value seen
      and the number of control-change messages, repeats included. */
  datatype Observation = Observation(min: int, max: int, changes: nat)

  function Min(a: int, b: int): int { if a <= b then a else b }
  function Max(a: int, b: int): int { if a <= b then b else a }

  /** The messages the window actually reads: at most WindowTicks ticks. An
      interrupt from the operator ends the window early, which is a shorter
      sequence of ticks. */
  function Window(ticks: seq<seq<Message>>): seq<Message>
  {
    Flatten(ticks[..Min(|ticks|, WindowTicks)])
  }

  /** How one message updates the detected-controls map. */
  function Observe(detected: map<int, Observation>, m: Message): (r: map<int, Observation>)
    ensures m.Other? ==> r == detected
    ensures m.ControlChange? ==>
      && r.Keys == detected.Keys + {m.control}
      && r[m.control].min <= m.value <= r[m.control].max
      && r[m.control].changes == (if m.control in detected then detected[m.control].changes else 0) + 1
      && (m.control in detected ==>
            r[m.control].min <= detected[m.control].min && detected[m.control].max <= r[m.control].max)
    ensures forall c :: c in detected && !(m.ControlChange? && m.control == c) ==> c in r && r[c] == detected[c]
  {
    match m
    case Other => detected
    case ControlChange(c, v) =>
      if c !in detected then detected[c := Observation(v, v, 1)]
      else
        var o := detected[c];
        detected[c := Observation(Min(o.min, v), Max(o.max, v), o.changes + 1)]
  }

  /** The detected-controls map after folding the messages in arrival order. */
  function Aggregate(es: seq<Message>): (r: map<int, Observation>)
    ensures forall c :: c in r ==> r[c].min <= r[c].max && r[c].changes >= 1
  {
    if es == [] then map[] else Observe(Aggregate(es[..|es| - 1]), es[|es| - 1])
  }

  lemma AggregateNext(es: seq<Message>, m: Message)
    ensures Aggregate(es + [m]) == Observe(Aggregate(es), m)
  {
    assert (es + [m])[..|es|] == es;
  }

  /** The raw values reported for control c, in arrival order. */
  function ValuesOf(es: seq<Message>, c: int): seq<int>
  {
    if es == [] then []
    else
      var m := es[|es| - 1];
      ValuesOf(es[..|es| - 1], c) + (if m.ControlChange? && m.control == c then [m.value] else [])
  }

  /** Smallest element of a non-empty sequence. */
  function SeqMin(s: seq<int>): (r: int)
    requires s != []
    ensures r in s && forall i :: 0 <= i < |s| ==> r <= s[i]
  {
    if |s| == 1 then s[0] else Min(SeqMin(s[..|s| - 1]), s[|s| - 1])
  }

  /** Largest element of a non-empty sequence. */
  function SeqMax(s: seq<int>): (r: int)
    requires s != []
    ensures r in s && forall i :: 0 <= i < |s| ==> s[i] <= r
  {
    if |s| == 1 then s[0] else Max(SeqMax(s[..|s| - 1]), s[|s| - 1])
  }

  /** Reference summary of a control's values, independent of the fold. */
  function Summary(vals: seq<int>): Observation
    requires vals != []
  {
    Observation(SeqMin(vals), SeqMax(vals), |vals|)
  }

  /** After the fold, a control is detected exactly when it sent at least one
      control change, and its entry is the minimum, the maximum and the count
      of its values. */
  lemma {:induction false} AggregateExact(es: seq<Message>, c: int)
    ensures c in Aggregate(es) <==> ValuesOf(es, c) != []
    ensures c in Aggregate(es) ==> Aggregate(es)[c] == Summary(ValuesOf(es, c))
  {
    if es != [] {
      var init, m := es[..|es| - 1], es[|es| - 1];
      AggregateExact(init, c);
      var vs := ValuesOf(init, c);
      if m.ControlChange? && m.control == c {
        assert ValuesOf(es, c) == vs + [m.value];
        if vs != [] {
          assert (vs + [m.value])[..|vs|] == vs;
          assert SeqMin(vs + [m.value]) == Min(SeqMin(vs), m.value);
          assert SeqMax(vs + [m.value]) == Max(SeqMax(vs), m.value);
        }
      } else {
        assert ValuesOf(es, c) == vs;
      }
    }
  }

  /** The invariants of every entry: min <= max, at least one change, every
      value of the control within [min, max], and min and max both seen. */
  lemma ObservationInvariants(es: seq<Message>, c: int)
    requires c in Aggregate(es)
    ensures var o := Aggregate(es)[c];
      && o.min <= o.max && o.changes >= 1
      && o.min in ValuesOf(es, c) && o.max in ValuesOf(es, c)
      && forall v :: v in ValuesOf(es, c) ==> o.min <= v <= o.max
  {
    AggregateExact(es, c);
  }

  /** The change count is at least the number of distinct values seen. */
  lemma ChangesAtLeastDistinct(es: seq<Message>, c: int)
    requires c in Aggregate(es)
    ensures |set v | v in ValuesOf(es, c)| <= Aggregate(es)[c].changes
  {
    AggregateExact(es, c);
    DistinctAtMostLength(ValuesOf(es, c));
  }

  lemma {:induction false} DistinctAtMostLength(s: seq<int>)
    ensures |set v | v in s| <= |s|
  {
    if s != [] {
      var init := s[..|s| - 1];
      DistinctAtMostLength(init);
      assert (set v | v in s) == (set v | v in init) + {s[|s| - 1]};
    }
  }

  /** Messages that are not control changes leave the map as it was. */
  lemma OtherMessagesIgnored(es: seq<Message>)
    ensures Aggregate(es + [Other]) == Aggregate(es)
  {
    AggregateNext(es, Other);
  }

  /** A deliberate sweep rather than noise or a stray tap. */
  predicate IsSignificant(o: Observation)
  {
    o.max - o.min > MinRange && o.changes > MinChanges
  }

  /** The controls with significant movement, their data copied unchanged. */
  function Significant(detected: map<int, Observation>): (sig: map<int, Observation>)
    ensures sig.Keys <= detected.Keys
    ensures forall c :: c in sig ==> sig[c] == detected[c] && IsSignificant(sig[c])
    ensures forall c :: c in detected && IsSignificant(detected[c]) ==> c in sig
  {
    map c | c in detected && IsSignificant(detected[c]) :: detected[c]
  }

  /** In terms of the messages themselves: a control is significant exactly
      when it reported more than MinChanges values, two of which lie more than
      MinRange apart. */
  lemma SignificantIffSweep(es: seq<Message>, c: int)
    ensures c in Significant(Aggregate(es)) <==>
      var vals := ValuesOf(es, c);
      |vals| > MinChanges && exists i, j :: 0 <= i < |vals| && 0 <= j < |vals| && vals[i] - vals[j] > MinRange
    ensures c in Significant(Aggregate(es)) ==> Significant(Aggregate(es))[c] == Aggregate(es)[c]
  {
    AggregateExact(es, c);
    var vals := ValuesOf(es, c);
    if c in Aggregate(es) && IsSignificant(Aggregate(es)[c]) {
      var o := Aggregate(es)[c];
      var i :| 0 <= i < |vals| && vals[i] == o.max;
      var j :| 0 <= j < |vals| && vals[j] == o.min;
      assert vals[i] - vals[j] > MinRange;
    }
  }

  /** One step of the observing loop: the in-place update of the map is
      Observe, which extends the fold by one message. */
  lemma ObserveNext(seen: seq<Message>, pending: seq<Message>, i: nat,
                    before: map<int, Observation>, after: map<int, Observation>)
    requires i < |pending| && before == Aggregate(seen + pending[..i])
    requires var m := pending[i];
      after == if m.Other? then before
               else if m.control !in before then before[m.control := Observation(m.value, m.value, 1)]
               else before[m.control := Observation(Min(before[m.control].min, m.value),
                                                    Max(before[m.control].max, m.value),
                                                    before[m.control].changes + 1)]
    ensures after == Aggregate(seen + pending[..i + 1])
  {
    assert after == Observe(before, pending[i]);
    assert seen + pending[..i + 1] == seen + pending[..i] + [pending[i]];
    AggregateNext(seen + pending[..i], pending[i]);
  }

  /** The observing loop: for each of at most WindowTicks ticks, drain the
      pending messages and update the detected controls in place. */
  method ObserveWindow(ticks: seq<seq<Message>>) returns (detected: map<int, Observation>)
    ensures detected == Aggregate(Window(ticks))
  {
    detected := map[];
    var n := Min(|ticks|, WindowTicks);
    var t := 0;
    while t < n
      invariant 0 <= t <= n
      invariant detected == Aggregate(Flatten(ticks[..t]))
    {
      var pending := ticks[t];
      ghost var seen := Flatten(ticks[..t]);
      var i := 0;
      assert seen + pending[..0] == seen;
      while i < |pending|
        invariant 0 <= i <= |pending|
        invariant detected == Aggregate(seen + pending[..i])
      {
        var message := pending[i];
        ghost var before := detected;
        if message.ControlChange? {
          var control, value := message.control, message.value;
          if control !in detected {
            detected := detected[control := Observation(value, value, 1)];
          } else {
            var o := detected[control];
            detected := detected[control := Observation(Min(o.min, value), Max(o.max, value), o.changes + 1)];
          }
        }
        ObserveNext(seen, pending, i, before, detected);
        i := i + 1;
      }
      assert pending[..i] == pending;
      FlattenNext(ticks, t);
      t := t + 1;
    }
  }

  /** The selection prompt: answers outside the candidates are rejected and
      the operator is asked again; the first accepted answer is returned.
      None stands for an operator who never gives an accepted answer. */
  method SelectControl(candidates: set<int>, answers: seq<int>) returns (selected: Option<int>)
    ensures selected.Some? <==> exists i :: 0 <= i < |answers| && answers[i] in candidates
    ensures selected.Some? ==>
      exists i :: 0 <= i < |answers| && answers[i] == selected.value && answers[i] in candidates
        && forall j :: 0 <= j < i ==> answers[j] !in candidates
  {
    var i := 0;
    while i < |answers|
      invariant 0 <= i <= |answers|
      invariant forall j :: 0 <= j < i ==> answers[j] !in candidates
    {
      if answers[i] in candidates {
        return Some(answers[i]);
      }
      i := i + 1;
    }
    return None;
  }

  /** learn_control: reuse the saved control number when there is one and the
      operator confirms it; otherwise observe, classify and let the operator
      choose among the significant controls. None is the failure result. */
  method LearnControl(saved: Option<int>, reuseSaved: bool, ticks: seq<seq<Message>>, answers: seq<int>)
    returns (control: Option<int>)
    ensures saved.Some? && reuseSaved ==> control == saved
    ensures !(saved.Some? && reuseSaved) ==>
      var candidates := Significant(Aggregate(Window(ticks))).Keys;
      && (control.Some? ==>
            exists i :: 0 <= i < |answers| && answers[i] == control.value && answers[i] in candidates
              && forall j :: 0 <= j < i ==> answers[j] !in candidates)
      && (control.None? <==> forall i :: 0 <= i < |answers| ==> answers[i] !in candidates)
  {
    if saved.Some? && reuseSaved {
      return saved;
    }
    var detected := ObserveWindow(ticks);
    var significant := Significant(detected);
    if significant == map[] {
      return None;
    }
    control := SelectControl(significant.Keys, answers);
  }
}
