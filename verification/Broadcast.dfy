/** A bounded broadcast channel, from one receiver's side. */
module Broadcast {

  datatype Received<+E> = Got(event: E, next: nat) | Lagged(next: nat) | Closed | Pending

  /**
   What a receiver at position `at` gets next. Only the last `capacity` events are retained: a
   receiver that fell further behind is told so once and moved to the oldest retained event, and
   `Closed` comes only after every retained event was read.
   */
  function Receive<E>(sent: seq<E>, open: bool, capacity: nat, at: nat): (r: Received<E>)
    requires at <= |sent| && capacity >= 1
    ensures r.Got? || r.Lagged? ==> at < r.next <= |sent|
    ensures r.Closed? || r.Pending? <==> at == |sent|
  {
    if at + capacity < |sent| then Lagged(|sent| - capacity)
    else if at < |sent| then Got(sent[at], at + 1)
    else if open then Pending
    else Closed
  }
}
