/** The msgpack-rpc endpoint: its send buffer, its queues and its cyclic request identifiers. */
module RpcEndpoint {
  import opened Options
  import opened Bytes

  type Payload = seq<byte>

  datatype Reply = Reply(error: Payload, result: Payload)

  /** Request identifiers are counted modulo this number. */
  const ID_COUNT: nat := 0xffffffff

  datatype View = View(nextId: nat, sendBuffer: seq<byte>, pending: set<nat>,
                       requests: seq<Payload>, notifications: seq<Payload>,
                       responses: map<nat, Reply>, incoming: int)

  const INITIAL := View(0, [], {}, [], [], map[], 0)

  /** `accepted` is the number of bytes the socket takes when it is offered the buffer. */
  datatype Event =
    | SendRequest(encoded: seq<byte>, accepted: nat)
    | SendOther(encoded: seq<byte>, accepted: nat)
    | ProcessOutgoing(accepted: nat)
    | InRequest(payload: Payload)
    | InNotification(payload: Payload)
    | InResponse(id: nat, reply: Reply)
    | GetRequest
    | GetNotification
    | GetResponse(id: nat)

  function Outgoing(v: View, e: Event): seq<byte> {
    match e
    case SendRequest(encoded, _) => v.sendBuffer + encoded
    case SendOther(encoded, _) => v.sendBuffer + encoded
    case _ => v.sendBuffer
  }

  predicate Possible(v: View, e: Event) {
    match e
    case SendRequest(_, n) => n <= |Outgoing(v, e)|
    case SendOther(_, n) => n <= |Outgoing(v, e)|
    case ProcessOutgoing(n) => n <= |Outgoing(v, e)|
    case _ => true
  }

  /** The program asserts that a pending identifier has no response waiting yet. */
  predicate AssertionFails(v: View, e: Event) {
    e.InResponse? && e.id in v.pending && e.id in v.responses
  }

  function After(v: View, e: Event): View
    requires Possible(v, e)
  {
    match e
    case SendRequest(_, n) =>
      v.(sendBuffer := Outgoing(v, e)[n..], nextId := (v.nextId + 1) % ID_COUNT, pending := v.pending + {v.nextId})
    case SendOther(_, n) => v.(sendBuffer := Outgoing(v, e)[n..])
    case ProcessOutgoing(n) => v.(sendBuffer := Outgoing(v, e)[n..])
    case InRequest(p) => v.(requests := v.requests + [p], incoming := v.incoming + 1)
    case InNotification(p) => v.(notifications := v.notifications + [p], incoming := v.incoming + 1)
    case InResponse(id, r) =>
      if id !in v.pending then v
      else if id in v.responses then v.(pending := v.pending - {id})
      else v.(pending := v.pending - {id}, responses := v.responses[id := r], incoming := v.incoming + 1)
    case GetRequest =>
      if v.requests == [] then v else v.(requests := v.requests[1..], incoming := v.incoming - 1)
    case GetNotification =>
      if v.notifications == [] then v else v.(notifications := v.notifications[1..], incoming := v.incoming - 1)
    case GetResponse(id) =>
      if id !in v.responses then v else v.(responses := v.responses - {id}, incoming := v.incoming - 1)
  }

  class EndPoint {
    var nextId: nat
    var sendBuffer: seq<byte>
    var pending: set<nat>
    var requests: seq<Payload>
    var notifications: seq<Payload>
    var responses: map<nat, Reply>
    var incoming: int

    function Contents(): View
      reads this
    {
      View(nextId, sendBuffer, pending, requests, notifications, responses, incoming)
    }

    constructor ()
      ensures Contents() == INITIAL
    {
      nextId, sendBuffer, pending := 0, [], {};
      requests, notifications, responses, incoming := [], [], map[], 0;
    }

    method ProcessOutgoingBuffer(accepted: nat)
      requires Possible(Contents(), ProcessOutgoing(accepted))
      modifies this`sendBuffer
      ensures Contents() == After(old(Contents()), ProcessOutgoing(accepted))
    {
      sendBuffer := sendBuffer[accepted..];
    }

    method SendMessage(msg: seq<byte>, accepted: nat)
      requires Possible(Contents(), SendOther(msg, accepted))
      modifies this`sendBuffer
      ensures Contents() == After(old(Contents()), SendOther(msg, accepted))
    {
      sendBuffer := sendBuffer + msg;
      ProcessOutgoingBuffer(accepted);
    }

    /** `encode` packs the request once its identifier is known. */
    method Request(encode: nat -> seq<byte>, accepted: nat) returns (id: nat)
      requires Possible(Contents(), SendRequest(encode(nextId), accepted))
      modifies this`sendBuffer, this`nextId, this`pending
      ensures id == old(nextId)
      ensures Contents() == After(old(Contents()), SendRequest(encode(id), accepted))
    {
      id := nextId;
      nextId := (nextId + 1) % ID_COUNT;
      SendMessage(encode(id), accepted);
      pending := pending + {id};
    }

    method EnqueueRequest(m: Payload)
      modifies this`requests, this`incoming
      ensures Contents() == After(old(Contents()), InRequest(m))
    {
      requests := requests + [m];
      incoming := incoming + 1;
    }

    method EnqueueNotification(m: Payload)
      modifies this`notifications, this`incoming
      ensures Contents() == After(old(Contents()), InNotification(m))
    {
      notifications := notifications + [m];
      incoming := incoming + 1;
    }

    method EnqueueResponse(id: nat, reply: Reply) returns (raised: bool)
      modifies this`pending, this`responses, this`incoming
      ensures raised == AssertionFails(old(Contents()), InResponse(id, reply))
      ensures Contents() == After(old(Contents()), InResponse(id, reply))
    {
      if id !in pending {
        return false;
      }
      pending := pending - {id};
      if id in responses {
        return true;
      }
      responses := responses[id := reply];
      incoming := incoming + 1;
      return false;
    }

    method TakeRequest() returns (m: Option<Payload>)
      modifies this`requests, this`incoming
      ensures m == if old(requests) == [] then None else Some(old(requests)[0])
      ensures Contents() == After(old(Contents()), GetRequest)
    {
      if requests == [] {
        return None;
      }
      m := Some(requests[0]);
      requests := requests[1..];
      incoming := incoming - 1;
    }

    method TakeNotification() returns (m: Option<Payload>)
      modifies this`notifications, this`incoming
      ensures m == if old(notifications) == [] then None else Some(old(notifications)[0])
      ensures Contents() == After(old(Contents()), GetNotification)
    {
      if notifications == [] {
        return None;
      }
      m := Some(notifications[0]);
      notifications := notifications[1..];
      incoming := incoming - 1;
    }

    method TakeResponse(id: nat) returns (m: Option<Reply>)
      modifies this`responses, this`incoming
      ensures m == if id in old(responses) then Some(old(responses)[id]) else None
      ensures Contents() == After(old(Contents()), GetResponse(id))
    {
      if id !in responses {
        return None;
      }
      m := Some(responses[id]);
      responses := responses - {id};
      incoming := incoming - 1;
    }
  }

  // ---------------------------------------------------------------- runs

  function Run(es: seq<Event>): Option<View> {
    if es == [] then Some(INITIAL)
    else
      var v := Run(es[..|es| - 1]);
      if v.Some? && Possible(v.value, es[|es| - 1]) then Some(After(v.value, es[|es| - 1])) else None
  }

  function Message(e: Event): seq<byte> {
    match e
    case SendRequest(b, _) => b
    case SendOther(b, _) => b
    case _ => []
  }

  function RequestsIn(es: seq<Event>): nat {
    if es == [] then 0 else RequestsIn(es[..|es| - 1]) + if es[|es| - 1].SendRequest? then 1 else 0
  }

  lemma IdentifierAfter(v: View, e: Event)
    requires Possible(v, e)
    ensures After(v, e).nextId == if e.SendRequest? then (v.nextId + 1) % ID_COUNT else v.nextId
  {
  }

  /** In every run requests are numbered in order, starting again after 0xfffffffe. */
  lemma {:induction false} RequestsAreNumbered(es: seq<Event>)
    requires Run(es).Some?
    ensures Run(es).value.nextId == RequestsIn(es) % 0xffff_ffff
  {
    if es != [] {
      RequestsAreNumbered(es[..|es| - 1]);
      IdentifierAfter(Run(es[..|es| - 1]).value, es[|es| - 1]);
      NextRemainder(RequestsIn(es[..|es| - 1]));
    }
  }

  /** All messages given to the endpoint for sending, in order. */
  function Encoded(es: seq<Event>): seq<byte> {
    if es == [] then [] else Encoded(es[..|es| - 1]) + Message(es[|es| - 1])
  }

  function AcceptedOf(v: View, e: Event): seq<byte>
    requires Possible(v, e)
  {
    if e.SendRequest? || e.SendOther? || e.ProcessOutgoing? then Outgoing(v, e)[..e.accepted] else []
  }

  /** The bytes the socket has accepted. */
  function Accepted(es: seq<Event>): seq<byte>
    requires Run(es).Some?
  {
    if es == [] then []
    else Accepted(es[..|es| - 1]) + AcceptedOf(Run(es[..|es| - 1]).value, es[|es| - 1])
  }

  datatype Queue = Requests | Notifications

  function Queued(v: View, q: Queue): seq<Payload> {
    if q == Requests then v.requests else v.notifications
  }

  function Arrival(e: Event, q: Queue): seq<Payload> {
    match e
    case InRequest(p) => if q == Requests then [p] else []
    case InNotification(p) => if q == Notifications then [p] else []
    case _ => []
  }

  function Removal(v: View, e: Event, q: Queue): seq<Payload> {
    if e == (if q == Requests then GetRequest else GetNotification) && Queued(v, q) != []
    then [Queued(v, q)[0]] else []
  }

  /** What has arrived for a queue, and what has been handed from it to the application. */
  function Arrived(es: seq<Event>, q: Queue): seq<Payload> {
    if es == [] then [] else Arrived(es[..|es| - 1], q) + Arrival(es[|es| - 1], q)
  }

  function Taken(es: seq<Event>, q: Queue): seq<Payload>
    requires Run(es).Some?
  {
    if es == [] then []
    else Taken(es[..|es| - 1], q) + Removal(Run(es[..|es| - 1]).value, es[|es| - 1], q)
  }

  /** In every run the socket has accepted a prefix of what was sent, and the buffer is the
      remainder. */
  lemma {:induction false} BytesAreConserved(es: seq<Event>)
    requires Run(es).Some?
    ensures Accepted(es) + Run(es).value.sendBuffer == Encoded(es)
  {
    if es != [] {
      var v, e := Run(es[..|es| - 1]).value, es[|es| - 1];
      BytesAreConserved(es[..|es| - 1]);
      EventConserves(v, e);
      Regroup(Accepted(es[..|es| - 1]), v.sendBuffer, AcceptedOf(v, e), After(v, e).sendBuffer, Message(e));
    }
  }

  lemma Regroup(gone: seq<byte>, buffer: seq<byte>, accepted: seq<byte>, rest: seq<byte>, message: seq<byte>)
    requires accepted + rest == buffer + message
    ensures (gone + accepted) + rest == (gone + buffer) + message
  {
    assert (gone + accepted) + rest == gone + (accepted + rest);
  }

  lemma EventConserves(v: View, e: Event)
    requires Possible(v, e)
    ensures AcceptedOf(v, e) + After(v, e).sendBuffer == v.sendBuffer + Message(e)
  {
    var out := Outgoing(v, e);
    if e.SendRequest? || e.SendOther? || e.ProcessOutgoing? {
      assert out == out[..e.accepted] + out[e.accepted..];
    }
  }

  /** In every run the counter of queued messages is exact. */
  lemma {:induction false} QueuesAreCounted(es: seq<Event>)
    requires Run(es).Some?
    ensures var v := Run(es).value; v.incoming == |v.requests| + |v.notifications| + |v.responses|
  {
    if es != [] {
      QueuesAreCounted(es[..|es| - 1]);
      var v, e := Run(es[..|es| - 1]).value, es[|es| - 1];
      if e.GetResponse? && e.id in v.responses {
        assert v.responses == (v.responses - {e.id})[e.id := v.responses[e.id]];
      }
    }
  }

  /** In every run requests, and notifications, are handed out in the order they arrived. */
  lemma {:induction false} QueuesStayInOrder(es: seq<Event>, q: Queue)
    requires Run(es).Some?
    ensures Taken(es, q) + Queued(Run(es).value, q) == Arrived(es, q)
  {
    if es != [] {
      var before, e := es[..|es| - 1], es[|es| - 1];
      var v := Run(before).value;
      QueuesStayInOrder(before, q);
      QueueStep(v, e, q);
      Reassociate(Taken(before, q), Removal(v, e, q), Queued(After(v, e), q), Queued(v, q), Arrival(e, q));
    }
  }

  lemma Reassociate(a: seq<Payload>, b: seq<Payload>, c: seq<Payload>, d: seq<Payload>, e: seq<Payload>)
    requires b + c == d + e
    ensures (a + b) + c == (a + d) + e
  {
    assert (a + b) + c == a + (b + c);
    assert (a + d) + e == a + (d + e);
  }

  lemma QueueStep(v: View, e: Event, q: Queue)
    requires Possible(v, e)
    ensures Removal(v, e, q) + Queued(After(v, e), q) == Queued(v, q) + Arrival(e, q)
  {
  }

  // ---------------------------------------------------------------- cyclic identifiers

  /** Reference bookkeeping: every request has its own serial number, which is never reused.
      `open` holds the requests that wait for a reply or whose reply has not been fetched. */
  datatype Entry = Entry(id: nat, reply: Option<Reply>)

  datatype Ledger = Ledger(issued: nat, open: map<nat, Entry>, handed: set<nat>)

  const BLANK := Ledger(0, map[], {})

  ghost predicate Carries(l: Ledger, id: nat, k: nat) {
    k in l.open && l.open[k].id == id
  }

  /** What an event means for the requests themselves. */
  ghost predicate Noted(l: Ledger, e: Event, l': Ledger) {
    match e
    case SendRequest(_, _) =>
      l' == l.(issued := l.issued + 1, open := l.open[l.issued := Entry(l.issued % ID_COUNT, None)])
    case InResponse(id, r) =>
      if exists k :: Carries(l, id, k) && l.open[k].reply.None?
      then exists k :: Carries(l, id, k) && l.open[k].reply.None? && l' == l.(open := l.open[k := Entry(id, Some(r))])
      else l' == l
    case GetResponse(id) =>
      if exists k :: Carries(l, id, k) && l.open[k].reply.Some?
      then exists k :: Carries(l, id, k) && l.open[k].reply.Some?
                       && l' == l.(open := l.open - {k}, handed := l.handed + {k})
      else l' == l
    case _ => l' == l
  }

  /** The ledger can follow every event. */
  lemma EveryEventIsNoted(l: Ledger, e: Event) returns (l': Ledger)
    ensures Noted(l, e, l')
  {
    l' := l;
    if e.SendRequest? {
      l' := l.(issued := l.issued + 1, open := l.open[l.issued := Entry(l.issued % ID_COUNT, None)]);
    } else if e.InResponse? {
      if k :| Carries(l, e.id, k) && l.open[k].reply.None? {
        l' := l.(open := l.open[k := Entry(e.id, Some(e.reply))]);
      }
    } else if e.GetResponse? {
      if k :| Carries(l, e.id, k) && l.open[k].reply.Some? {
        l' := l.(open := l.open - {k}, handed := l.handed + {k});
      }
    }
  }

  /** Open requests are among the last `ID_COUNT` issued, and a request whose reply has been
      handed out is never open again. */
  ghost predicate Windowed(l: Ledger) {
    && (forall k :: k in l.open ==> l.issued - ID_COUNT <= k < l.issued && l.open[k].id == k % ID_COUNT)
    && (forall k :: k in l.handed ==> k < l.issued && k !in l.open)
  }

  ghost predicate Distinct(l: Ledger) {
    forall j, k :: j in l.open && k in l.open && l.open[j].id == l.open[k].id ==> j == k
  }

  /** The endpoint's identifiers stand for exactly the open requests, and none is both
      pending and answered. */
  ghost predicate Tracks(v: View, l: Ledger) {
    && v.nextId == l.issued % ID_COUNT
    && (forall k :: k in l.open ==> (l.open[k].id in v.pending <==> l.open[k].reply.None?))
    && (forall k :: k in l.open ==> (l.open[k].id in v.responses <==> l.open[k].reply.Some?))
    && (forall k :: k in l.open && l.open[k].reply.Some? ==> l.open[k].reply == Some(v.responses[l.open[k].id]))
    && (forall id :: id in v.pending || id in v.responses ==> exists k :: Carries(l, id, k))
  }

  lemma WindowedIsDistinct(l: Ledger)
    requires Windowed(l)
    ensures Distinct(l)
  {
    forall j, k | j in l.open && k in l.open && l.open[j].id == l.open[k].id ensures j == k {
      CloseNumbersDiffer(j, k);
    }
  }

  lemma CloseNumbersDiffer(j: nat, k: nat)
    requires j % ID_COUNT == k % ID_COUNT && j < k + ID_COUNT && k < j + ID_COUNT
    ensures j == k
  {
  }

  predicate Fresh(v: View) {
    v.nextId !in v.pending && v.nextId !in v.responses
  }

  /** The identifier about to be issued is free exactly when the request that had it last,
      `ID_COUNT` requests ago, is closed. */
  lemma FreshIffWindowMoves(v: View, l: Ledger)
    requires Windowed(l) && Tracks(v, l)
    ensures Fresh(v) <==> forall k :: k in l.open ==> l.issued - ID_COUNT < k
  {
    forall k | k in l.open ensures l.open[k].id == v.nextId <==> k == l.issued - ID_COUNT {
      SameIdApart(l.issued, k);
    }
    if !Fresh(v) {
      var k :| Carries(l, v.nextId, k);
    }
  }

  lemma SameIdApart(n: nat, k: nat)
    requires n - ID_COUNT <= k < n
    ensures k % ID_COUNT == n % ID_COUNT <==> k == n - ID_COUNT
  {
  }

  lemma SendTracks(v: View, l: Ledger, e: Event, l': Ledger)
    requires Windowed(l) && Tracks(v, l) && e.SendRequest? && Possible(v, e) && Fresh(v) && Noted(l, e, l')
    ensures Windowed(l') && Tracks(After(v, e), l')
  {
    FreshIffWindowMoves(v, l);
    NextRemainder(l.issued);
    assert forall k :: k in l.open ==> l.open[k].id != v.nextId;
    IssueTracks(v, l, After(v, e), l');
  }

  lemma IssueTracks(v: View, l: Ledger, v': View, l': Ledger)
    requires Tracks(v, l) && Fresh(v) && forall k :: k in l.open ==> k < l.issued && l.open[k].id != v.nextId
    requires l' == l.(issued := l.issued + 1, open := l.open[l.issued := Entry(v.nextId, None)])
    requires v'.nextId == l'.issued % ID_COUNT && v'.pending == v.pending + {v.nextId} && v'.responses == v.responses
    ensures Tracks(v', l')
  {
    assert Carries(l', v.nextId, l.issued);
    assert forall id, k :: Carries(l, id, k) ==> Carries(l', id, k);
  }

  lemma NextRemainder(n: nat)
    ensures (n % ID_COUNT + 1) % ID_COUNT == (n + 1) % ID_COUNT
  {
  }

  lemma ArrivalTracks(v: View, l: Ledger, e: Event, l': Ledger)
    requires Windowed(l) && Tracks(v, l) && e.InResponse? && Noted(l, e, l')
    ensures Windowed(l') && Tracks(After(v, e), l')
    ensures !AssertionFails(v, e)
  {
    WindowedIsDistinct(l);
    if e.id in v.pending {
      var k :| Carries(l, e.id, k);
      assert l' == l.(open := l.open[k := Entry(e.id, Some(e.reply))]);
      AnswerTracks(v, l, k, e.reply, After(v, e), l');
    }
  }

  lemma AnswerTracks(v: View, l: Ledger, k: nat, reply: Reply, v': View, l': Ledger)
    requires Distinct(l) && Tracks(v, l) && k in l.open && l.open[k].reply.None?
    requires l' == l.(open := l.open[k := Entry(l.open[k].id, Some(reply))])
    requires v'.nextId == v.nextId && v'.pending == v.pending - {l.open[k].id}
    requires v'.responses == v.responses[l.open[k].id := reply]
    ensures Tracks(v', l')
  {
    assert forall id, j :: Carries(l, id, j) ==> Carries(l', id, j);
  }

  /** Fetching a reply closes one request, which had not been handed out before. */
  lemma FetchTracks(v: View, l: Ledger, e: Event, l': Ledger)
    requires Windowed(l) && Tracks(v, l) && e.GetResponse? && Noted(l, e, l')
    ensures Windowed(l') && Tracks(After(v, e), l')
    ensures e.id in v.responses ==> exists k :: k in l.open && l.open[k].reply == Some(v.responses[e.id])
                                                && k !in l.handed && l'.handed == l.handed + {k}
  {
    WindowedIsDistinct(l);
    if e.id in v.responses {
      var k :| Carries(l, e.id, k);
      assert l'.open == l.open - {k} && l'.handed == l.handed + {k};
      ClosingTracks(v, l, k, After(v, e), l');
    }
  }

  lemma ClosingTracks(v: View, l: Ledger, k: nat, v': View, l': Ledger)
    requires Windowed(l) && Distinct(l) && Tracks(v, l) && k in l.open && l.open[k].reply.Some?
    requires l' == l.(open := l.open - {k}, handed := l.handed + {k})
    requires v' == v.(responses := v.responses - {l.open[k].id}, incoming := v.incoming - 1)
    ensures Windowed(l') && Tracks(v', l')
  {
    assert forall id, j :: Carries(l, id, j) && j != k ==> Carries(l', id, j);
  }

  /** Whole runs: while every request is sent under a free identifier, the endpoint does what
      unbounded serial numbers would do, no response is ever handed out twice, and the
      program's assertion never fails. `ls` lists the ledgers passed through. */
  lemma {:induction false} RunsTrackRequests(es: seq<Event>, ls: seq<Ledger>)
    requires Run(es).Some? && |ls| == |es| + 1 && ls[0] == BLANK
    requires forall i :: 0 <= i < |es| ==> Noted(ls[i], es[i], ls[i + 1])
    requires forall i :: 0 <= i < |es| && es[i].SendRequest? ==> Run(es[..i]).Some? && Fresh(Run(es[..i]).value)
    ensures Windowed(ls[|es|]) && Tracks(Run(es).value, ls[|es|])
    ensures es != [] ==> !AssertionFails(Run(es[..|es| - 1]).value, es[|es| - 1])
  {
    if es != [] {
      var before, e := es[..|es| - 1], es[|es| - 1];
      forall i | 0 <= i < |before| ensures before[..i] == es[..i] {
      }
      RunsTrackRequests(before, ls[..|es|]);
      var v, l, l' := Run(before).value, ls[|es| - 1], ls[|es|];
      if e.SendRequest? {
        SendTracks(v, l, e, l');
      } else if e.InResponse? {
        ArrivalTracks(v, l, e, l');
      } else if e.GetResponse? {
        FetchTracks(v, l, e, l');
      }
    }
  }

  /** Freshness is what it takes: a request keeps the identifiers of open requests distinct if
      and only if it is sent under a free one. */
  lemma SendKeepsDistinctIff(v: View, l: Ledger, e: Event, l': Ledger)
    requires Windowed(l) && Tracks(v, l) && e.SendRequest? && Noted(l, e, l')
    ensures Distinct(l') <==> Fresh(v)
  {
    WindowedIsDistinct(l);
    FreshIffUnused(v, l);
    AddingKeepsDistinctIff(l, v.nextId, l');
  }

  lemma FreshIffUnused(v: View, l: Ledger)
    requires Tracks(v, l)
    ensures Fresh(v) <==> forall k :: k in l.open ==> l.open[k].id != v.nextId
  {
    if !Fresh(v) {
      var k: nat :| Carries(l, v.nextId, k);
    }
  }

  lemma AddingKeepsDistinctIff(l: Ledger, id: nat, l': Ledger)
    requires Distinct(l) && forall k :: k in l.open ==> k < l.issued
    requires l' == l.(issued := l.issued + 1, open := l.open[l.issued := Entry(id, None)])
    ensures Distinct(l') <==> forall k :: k in l.open ==> l.open[k].id != id
  {
    if k :| k in l.open && l.open[k].id == id {
      assert k in l'.open && l.issued in l'.open && k != l.issued && l'.open[k].id == l'.open[l.issued].id;
    }
  }

  // ---------------------------------------------------------------- the assertion

  /** No identifier is both waited for and answered. */
  ghost predicate Apart(v: View) {
    v.pending !! v.responses.Keys
  }

  /** An identifier is issued again while its response waits to be fetched. */
  predicate Reissues(v: View, e: Event) {
    e.SendRequest? && v.nextId in v.responses
  }

  /** The next message can trip the program's assertion exactly when an identifier is both. */
  lemma AssertionCanFailIff(v: View)
    ensures (exists e :: Possible(v, e) && AssertionFails(v, e)) <==> !Apart(v)
  {
    if !Apart(v) {
      var id :| id in v.pending && id in v.responses;
      var e := InResponse(id, v.responses[id]);
      assert Possible(v, e) && AssertionFails(v, e);
    }
  }

  /** That comes about in one step exactly by reissuing; reusing an identifier that is merely
      pending does no harm here. */
  lemma ApartIsKeptIff(v: View, e: Event)
    requires Apart(v) && Possible(v, e)
    ensures Apart(After(v, e)) <==> !Reissues(v, e)
  {
    if Reissues(v, e) {
      assert v.nextId in After(v, e).pending && v.nextId in After(v, e).responses;
    }
  }

  /** In every run without a reissue no message trips the assertion. */
  lemma {:induction false} NoReissueNoFailure(es: seq<Event>)
    requires Run(es).Some?
    requires forall i :: 0 <= i < |es| && Run(es[..i]).Some? ==> !Reissues(Run(es[..i]).value, es[i])
    ensures Apart(Run(es).value)
    ensures forall e :: !AssertionFails(Run(es).value, e)
  {
    if es != [] {
      var before, e := es[..|es| - 1], es[|es| - 1];
      forall i | 0 <= i < |before| ensures before[..i] == es[..i] {
      }
      NoReissueNoFailure(before);
      ApartIsKeptIff(Run(before).value, e);
    }
  }

  /** A message that trips the assertion is dropped with its request; the waiting response and
      everything else stays. */
  lemma FailureDropsRequest(v: View, e: Event)
    requires AssertionFails(v, e)
    ensures forall id :: id in After(v, e).pending <==> id in v.pending && id != e.id
    ensures After(v, e).responses == v.responses && After(v, e).incoming == v.incoming
  {
  }

  /** If an identifier is reissued while its response waits to be fetched, the next response
      under it trips the program's assertion. */
  lemma ReuseTripsAssertion(v: View, send: Event, reply: Reply)
    requires Reissues(v, send) && Possible(v, send)
    ensures AssertionFails(After(v, send), InResponse(v.nextId, reply))
  {
  }
}
