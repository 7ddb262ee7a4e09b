/** MIDI input as the core sees it. */
module Midi {
  /** A message drained from the input port. A control change carries the
      control number and its raw 7-bit value; every other kind of message
      (note on, clock, ...) is opaque to the core. */
  datatype Message = ControlChange(control: int, value: int) | Other

  /** The messages of consecutive poll ticks, in arrival order. */
  function Flatten(ticks: seq<seq<Message>>): seq<Message>
  {
    if ticks == [] then [] else Flatten(ticks[..|ticks| - 1]) + ticks[|ticks| - 1]
  }

  /** Draining one more tick appends its messages. */
  lemma FlattenNext(ticks: seq<seq<Message>>, t: nat)
    requires t < |ticks|
    ensures Flatten(ticks[..t + 1]) == Flatten(ticks[..t]) + ticks[t]
  {
    assert ticks[..t + 1][..t] == ticks[..t];
  }
}
