/**
  A Node.js readable stream seen as the sequence of events its listeners
  receive: `data` chunks, then `end` or `error`.
 */
module Streams {
  import opened Js

  datatype Event = Data(chunk: seq<byte>) | End | Error(err: Object)

  /** The bytes an event carries (none for `end` and `error`). */
  function BytesOf(e: Event): seq<byte>
  {
    if e.Data? then e.chunk else []
  }

  /** The in-order concatenation of every `data` chunk. */
  function Payload(events: seq<Event>): seq<byte>
  {
    if |events| == 0 then [] else BytesOf(events[0]) + Payload(events[1..])
  }

  /** No terminal event has arrived yet. Node emits nothing after `end` or
      `error`, so a complete stream is such a prefix plus one terminal event. */
  predicate Streaming(events: seq<Event>)
  {
    forall i :: 0 <= i < |events| ==> events[i].Data?
  }

  /** Appending an event extends the payload by exactly that event's bytes,
      which is what lets a left-to-right listener accumulate the payload. */
  lemma {:induction false} PayloadSnoc(events: seq<Event>, e: Event)
    ensures Payload(events + [e]) == Payload(events) + BytesOf(e)
    decreases |events|
  {
    if |events| == 0 {
      assert events + [e] == [e];
      assert [e][1..] == [];
    } else {
      assert (events + [e])[1..] == events[1..] + [e];
      PayloadSnoc(events[1..], e);
    }
  }
}
