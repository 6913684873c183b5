/** Ranking of configuration BPDUs, as the static methods of `Stp` compute it.

    A bridge identifier and a port identifier enter the comparison only through
    their encoded values, so both are natural numbers here. */
module BpduOrder {
  import opened Options

  datatype Order = Superior | Repeated | Inferior

  /** The priority part of a received configuration BPDU. */
  datatype Vector = Vector(root: nat, cost: int, bridge: nat, port: nat)

  datatype Times = Times(messageAge: int, maxAge: int, helloTime: int, forwardDelay: int)

  function CompareValue(a: int, b: int): Order {
    if a < b then Superior else if a == b then Repeated else Inferior
  }

  function CompareRootPath(cost1: int, cost2: int, bridge1: nat, bridge2: nat,
                           port1: nat, port2: nat): Order
  {
    var byCost := CompareValue(cost1, cost2);
    if byCost != Repeated then byCost else
      var byBridge := CompareValue(bridge1, bridge2);
      if byBridge != Repeated then byBridge else
        CompareValue(port1, port2)
  }

  /** When the four keys agree, the program goes on to compare an encoded identifier
      with a textual MAC address. A number never equals a text, so that test always
      falls through to the comparison of the times. */
  function CompareBpduInfo(mine: Option<Vector>, myTimes: Option<Times>,
                           rcv: Vector, rcvTimes: Times): Order
  {
    if mine.None? then Superior else
      var byRoot := CompareValue(rcv.root, mine.value.root);
      if byRoot != Repeated then byRoot else
        var byPath := CompareRootPath(rcv.cost, mine.value.cost, rcv.bridge, mine.value.bridge,
                                      rcv.port, mine.value.port);
        if byPath != Repeated then byPath else
          if myTimes == Some(rcvTimes) then Repeated else Superior
  }

  /** Reference order: `a` precedes `b` when some key is smaller and all earlier keys agree. */
  predicate Precedes(a: Vector, b: Vector) {
    || a.root < b.root
    || (a.root == b.root && a.cost < b.cost)
    || (a.root == b.root && a.cost == b.cost && a.bridge < b.bridge)
    || (a.root == b.root && a.cost == b.cost && a.bridge == b.bridge && a.port < b.port)
  }

  predicate AtMost(a: Vector, b: Vector) {
    a == b || Precedes(a, b)
  }

  lemma PrecedesIsStrictTotalOrder(a: Vector, b: Vector, c: Vector)
    ensures !Precedes(a, a)
    ensures Precedes(a, b) && Precedes(b, c) ==> Precedes(a, c)
    ensures a == b || Precedes(a, b) || Precedes(b, a)
    ensures !(Precedes(a, b) && Precedes(b, a))
  {
  }

  /** A received vector replaces the held one when it precedes it, or when it is the same
      vector with other times; it is inferior exactly when the held one precedes it. */
  lemma ComparisonIsLexicographic(mine: Vector, myTimes: Option<Times>, rcv: Vector, rcvTimes: Times)
    ensures CompareBpduInfo(Some(mine), myTimes, rcv, rcvTimes) == Superior
            <==> Precedes(rcv, mine) || (rcv == mine && myTimes != Some(rcvTimes))
    ensures CompareBpduInfo(Some(mine), myTimes, rcv, rcvTimes) == Inferior <==> Precedes(mine, rcv)
  {
  }
}
