/** The relay of a published port: bytes moved between two sockets until either side ends or fails. */
module Proxy {
  type Bytes = seq<bv8>

  datatype Side = Left | Right

  datatype Received = Data(bytes: Bytes) | Closed | Failed

  /** A readable socket: what recv gives, and how many bytes the other side's sendall takes before it fails. */
  datatype Event = Readable(side: Side, received: Received, taken: nat)

  /** The bytes an event receives from its side, and those of them that reach the other. */
  function Got(e: Event): Bytes { if e.received.Data? then e.received.bytes else [] }

  function Passed(e: Event): Bytes { if e.taken < |Got(e)| then Got(e)[..e.taken] else Got(e) }

  /** Something was received and all of it was sent on. */
  predicate Complete(e: Event) { Got(e) != [] && |Got(e)| <= e.taken }

  function ReceivedFrom(events: seq<Event>, side: Side): Bytes {
    if events == [] then []
    else
      var e := events[|events| - 1];
      ReceivedFrom(events[..|events| - 1], side) + (if e.side == side then Got(e) else [])
  }

  /** The bytes from `side` that reached the other. */
  function DeliveredFrom(events: seq<Event>, side: Side): Bytes {
    if events == [] then []
    else
      var e := events[|events| - 1];
      DeliveredFrom(events[..|events| - 1], side) + (if e.side == side then Passed(e) else [])
  }

  /** The loop goes on exactly as long as every event is complete. */
  predicate Handled(events: seq<Event>, n: nat, open: bool) {
    && n <= |events| && (forall j :: 0 <= j < n - 1 ==> Complete(events[j]))
    && if open then n == |events| && (n > 0 ==> Complete(events[n - 1])) else n > 0 && !Complete(events[n - 1])
  }

  /** The four byte streams at the end, and how many events the loop handled. */
  datatype Streams = Streams(fromLeft: Bytes, toRight: Bytes, fromRight: Bytes, toLeft: Bytes)

  method ProxyConnection(events: seq<Event>) returns (s: Streams, n: nat, open: bool)
    ensures Handled(events, n, open)
    ensures s.fromLeft == ReceivedFrom(events[..n], Left) && s.toRight == DeliveredFrom(events[..n], Left)
    ensures s.fromRight == ReceivedFrom(events[..n], Right) && s.toLeft == DeliveredFrom(events[..n], Right)
  {
    s := Streams([], [], [], []);
    n := 0;
    while n < |events|
      invariant n <= |events| && forall j :: 0 <= j < n ==> Complete(events[j])
      invariant s.fromLeft == ReceivedFrom(events[..n], Left) && s.toRight == DeliveredFrom(events[..n], Left)
      invariant s.fromRight == ReceivedFrom(events[..n], Right) && s.toLeft == DeliveredFrom(events[..n], Right)
    {
      var e := events[n];
      assert events[..n + 1][..n] == events[..n];
      n := n + 1;
      if e.received.Closed? || e.received.Failed? {
        return s, n, false;
      }
      var data := e.received.bytes;
      if data == [] {
        return s, n, false;
      }
      var sent := if e.taken < |data| then data[..e.taken] else data;
      match e.side {
        case Left => s := s.(fromLeft := s.fromLeft + data, toRight := s.toRight + sent);
        case Right => s := s.(fromRight := s.fromRight + data, toLeft := s.toLeft + sent);
      }
      if |sent| < |data| {
        return s, n, false;
      }
    }
    return s, n, true;
  }

  lemma {:induction false} CompletePasses(events: seq<Event>, side: Side)
    requires forall j :: 0 <= j < |events| ==> Complete(events[j])
    ensures DeliveredFrom(events, side) == ReceivedFrom(events, side)
  {
    if events != [] {
      CompletePasses(events[..|events| - 1], side);
    }
  }

  /**
    In each direction the bytes delivered are a prefix of the bytes received; none is missing while
    the loop runs, and when it ends only the direction of the last event can be short.
   */
  lemma {:induction false} PrefixDelivered(events: seq<Event>, n: nat, open: bool, side: Side)
    requires Handled(events, n, open)
    ensures DeliveredFrom(events[..n], side) <= ReceivedFrom(events[..n], side)
    ensures open || events[n - 1].side != side ==> DeliveredFrom(events[..n], side) == ReceivedFrom(events[..n], side)
  {
    if n > 0 {
      assert events[..n][..n - 1] == events[..n - 1];
      CompletePasses(events[..n - 1], side);
    }
  }
}
