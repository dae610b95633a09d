/**
  The named request/reply channel at the granularity of its shared accesses: one client, one
  service, two flags, two buffers, every byte copied in a step of its own.
*/
module NamedChannel {
  import opened Numbers

  datatype Shared = Shared(
    hasRequest: bool, request: seq<Byte>, requestLength: nat,
    hasReply: bool, reply: seq<Byte>, replyLength: nat)

  /** Where the client is inside a send. */
  datatype Client =
    | Idle
    | AwaitFree(data: seq<Byte>)
    | Put(data: seq<Byte>, done: nat)
    | PutLength(data: seq<Byte>)
    | Post(data: seq<Byte>)
    | AwaitReply(data: seq<Byte>)
    | GetLength(data: seq<Byte>)
    | Get(data: seq<Byte>, length: nat, copied: seq<Byte>)
    | Clear(data: seq<Byte>, copied: seq<Byte>)

  /** Where the service is inside a receive or a reply. */
  datatype Service =
    | Resting
    | AwaitRequest(room: nat)
    | TakeLength(room: nat)
    | Take(room: nat, length: nat, copied: seq<Byte>)
    | Holding
    | Fill(data: seq<Byte>, done: nat)
    | FillLength(data: seq<Byte>)
    | Release(data: seq<Byte>)
    | Announce(data: seq<Byte>)

  /** The channel with what was posted, received, answered and returned so far.  For each send that
      returned, sent says which of the posted requests was its own. */
  datatype State = State(
    ch: Shared, client: Client, service: Service,
    asked: seq<seq<Byte>>, rooms: seq<nat>, taken: seq<seq<Byte>>, answers: seq<seq<Byte>>,
    sent: seq<int>, returned: seq<seq<Byte>>)

  datatype Event =
    | CallSend(data: seq<Byte>)
    | ClientStep
    | SendTimeout
    | ReplyTimeout
    | CallReceive(room: nat)
    | CallReply(data: seq<Byte>)
    | ServiceStep
    | ReceiveTimeout

  /** One shared access of the client.  The array it sends from holds at least the request, so the
      request length is what bounds the reply. */
  function StepClient(s: State): State
    requires |s.ch.request| == 4096 && |s.ch.reply| == 4096
  {
    var c := s.ch;
    match s.client
    case Idle => s
    case AwaitFree(data) => if c.hasRequest then s else s.(client := Put(data, 0))
    case Put(data, j) =>
      if j < |data| && j < 4096 then s.(ch := c.(request := c.request[j := data[j]]), client := Put(data, j + 1))
      else s.(client := PutLength(data))
    case PutLength(data) => s.(ch := c.(requestLength := |data|), client := Post(data))
    case Post(data) => s.(ch := c.(hasRequest := true), client := AwaitReply(data), asked := s.asked + [data])
    case AwaitReply(data) => if c.hasReply then s.(client := GetLength(data)) else s
    case GetLength(data) => s.(client := Get(data, Min(c.replyLength, |data|), []))
    case Get(data, n, copied) =>
      if |copied| < n && |copied| < 4096 then s.(client := Get(data, n, copied + [c.reply[|copied|]]))
      else s.(client := Clear(data, copied))
    case Clear(data, copied) =>
      s.(ch := c.(hasReply := false), client := Idle, sent := s.sent + [|s.asked| - 1],
         returned := s.returned + [copied])
  }

  /** One shared access of the service; room is what capacity and array leave for the request. */
  function StepService(s: State): State
    requires |s.ch.request| == 4096 && |s.ch.reply| == 4096
  {
    var c := s.ch;
    match s.service
    case Resting => s
    case AwaitRequest(room) => if c.hasRequest then s.(service := TakeLength(room)) else s
    case TakeLength(room) => s.(service := Take(room, Min(c.requestLength, room), []))
    case Take(room, n, copied) =>
      if |copied| < n && |copied| < 4096 then s.(service := Take(room, n, copied + [c.request[|copied|]]))
      else s.(service := Holding, rooms := s.rooms + [room], taken := s.taken + [copied])
    case Holding => s
    case Fill(data, j) =>
      if j < |data| && j < 4096 then s.(ch := c.(reply := c.reply[j := data[j]]), service := Fill(data, j + 1))
      else s.(service := FillLength(data))
    case FillLength(data) => s.(ch := c.(replyLength := |data|), service := Release(data))
    case Release(data) => s.(ch := c.(hasRequest := false), service := Announce(data))
    case Announce(data) => s.(ch := c.(hasReply := true), service := Resting, answers := s.answers + [data])
  }

  function Step(s: State, e: Event): State
    requires |s.ch.request| == 4096 && |s.ch.reply| == 4096
  {
    match e
    case CallSend(data) => if s.client == Idle && |data| <= 4096 then s.(client := AwaitFree(data)) else s
    case ClientStep => StepClient(s)
    case SendTimeout => if s.client.AwaitFree? then s.(client := Idle) else s
    case ReplyTimeout => if s.client.AwaitReply? then s.(client := Idle) else s
    case CallReceive(room) => if s.service == Resting then s.(service := AwaitRequest(room)) else s
    case CallReply(data) => if s.service == Holding && |data| <= 4096 then s.(service := Fill(data, 0)) else s
    case ServiceStep => StepService(s)
    case ReceiveTimeout => if s.service.AwaitRequest? then s.(service := Resting) else s
  }

  // ---- The hand-over ----

  function Cut(data: seq<Byte>, room: nat): (r: seq<Byte>)
    ensures r <= data && |r| == Min(|data|, room)
  {
    if |data| <= room then data else data[..room]
  }

  /** The service has not yet seen a request. */
  ghost predicate Waiting(v: Service) {
    v.Resting? || v.AwaitRequest?
  }

  ghost predicate Holds(buffer: seq<Byte>, data: seq<Byte>, n: nat) {
    |buffer| == 4096 && n <= |data| <= 4096 && forall j :: 0 <= j < n ==> buffer[j] == data[j]
  }

  ghost predicate Last<X>(s: seq<X>, x: X) {
    |s| > 0 && s[|s| - 1] == x
  }

  /** A request is being written; the service does not look. */
  ghost predicate Writing(s: State) {
    && !s.ch.hasRequest && !s.ch.hasReply && Waiting(s.service) && |s.asked| == |s.taken| == |s.answers| == |s.returned|
    && match s.client
    case Idle => true
    case AwaitFree(data) => |data| <= 4096
    case Put(data, j) => Holds(s.ch.request, data, j)
    case PutLength(data) => Holds(s.ch.request, data, |data|)
    case Post(data) => Holds(s.ch.request, data, |data|) && s.ch.requestLength == |data|
    case _ => false
  }

  /** A request is posted; the client waits while the service reads it and writes the reply. */
  ghost predicate Serving(s: State) {
    && s.client.AwaitReply? && s.ch.hasRequest && !s.ch.hasReply
    && Last(s.asked, s.client.data) && |s.asked| == |s.answers| + 1 == |s.returned| + 1
    && Holds(s.ch.request, s.client.data, |s.client.data|) && s.ch.requestLength == |s.client.data|
    && match s.service
    case Resting => |s.taken| == |s.returned|
    case AwaitRequest(_) => |s.taken| == |s.returned|
    case TakeLength(_) => |s.taken| == |s.returned|
    case Take(room, n, copied) =>
      && |s.taken| == |s.returned| && n == Min(|s.client.data|, room)
      && |copied| <= n && copied == s.client.data[..|copied|]
    case Holding => |s.taken| == |s.asked|
    case Fill(data, j) => |s.taken| == |s.asked| && Holds(s.ch.reply, data, j)
    case FillLength(data) => |s.taken| == |s.asked| && Holds(s.ch.reply, data, |data|)
    case Release(data) => |s.taken| == |s.asked| && Holds(s.ch.reply, data, |data|) && s.ch.replyLength == |data|
    case Announce(_) => false
  }

  /** Between the two flag writes of a reply. */
  ghost predicate Turning(s: State) {
    && s.client.AwaitReply? && !s.ch.hasRequest && !s.ch.hasReply && s.service.Announce?
    && Last(s.asked, s.client.data) && |s.asked| == |s.taken| == |s.answers| + 1 == |s.returned| + 1
    && Holds(s.ch.reply, s.service.data, |s.service.data|) && s.ch.replyLength == |s.service.data|
  }

  /** The reply is announced; the client reads it and the service does not write. */
  ghost predicate Reading(s: State) {
    && !s.ch.hasRequest && s.ch.hasReply && Waiting(s.service)
    && |s.asked| == |s.taken| == |s.answers| == |s.returned| + 1
    && var a := s.answers[|s.answers| - 1];
    && Holds(s.ch.reply, a, |a|) && s.ch.replyLength == |a|
    && match s.client
    case AwaitReply(data) => Last(s.asked, data)
    case GetLength(data) => Last(s.asked, data)
    case Get(data, n, copied) => Last(s.asked, data) && n == Min(|a|, |data|) &&
      |copied| <= n && copied == a[..|copied|]
    case Clear(data, copied) => Last(s.asked, data) && copied == Cut(a, |data|)
    case _ => false
  }

  /** The i-th receive got the i-th request, cut to the room given, and the i-th answer was given
      after it; and what a send returned is the answer to its own request, cut to the length of the
      request.  A send that returns before its own request is answered, let alone received, is not
      paired. */
  ghost predicate Paired(s: State) {
    && |s.rooms| == |s.taken| && |s.answers| <= |s.taken| <= |s.asked| && |s.sent| == |s.returned|
    && (forall i :: 0 <= i < |s.taken| ==> s.taken[i] == Cut(s.asked[i], s.rooms[i]))
    && (forall i :: 0 <= i < |s.sent| ==> PairedSend(s.asked, s.answers, s.sent[i], s.returned[i]))
  }

  ghost predicate PairedSend(asked: seq<seq<Byte>>, answers: seq<seq<Byte>>, n: int, result: seq<Byte>) {
    0 <= n < |answers| <= |asked| && result == Cut(answers[n], |asked[n]|)
  }

  /** Paired, and every posted request was some send's that returned, in order. */
  ghost predicate Matched(s: State) {
    Paired(s) && forall i :: 0 <= i < |s.sent| ==> s.sent[i] == i
  }

  ghost predicate Inv(s: State) {
    && |s.ch.request| == 4096 && |s.ch.reply| == 4096 && Matched(s)
    && (Writing(s) || Serving(s) || Turning(s) || Reading(s))
  }

  /** Neither side writes a buffer while the other reads it. */
  ghost predicate Separate(s: State) {
    && !((s.client.Put? || s.client.PutLength?) && (s.service.TakeLength? || s.service.Take?))
    && !((s.service.Fill? || s.service.FillLength?) && (s.client.GetLength? || s.client.Get?))
  }

  lemma InvSeparate(s: State)
    requires Inv(s)
    ensures Separate(s)
  {
  }

  lemma ClientKeeps(s: State)
    requires Inv(s)
    ensures Inv(StepClient(s))
  {
    if Writing(s) {
      ClientWrites(s);
    } else if Reading(s) {
      ClientReads(s);
    }
  }

  lemma ClientWrites(s: State)
    requires Inv(s) && Writing(s)
    ensures Inv(StepClient(s))
  {
    hide Reading, Turning;
    if s.client.Post? {
      assert Serving(StepClient(s));
    } else {
      assert Writing(StepClient(s));
    }
  }

  lemma ClientReads(s: State)
    requires Inv(s) && Reading(s)
    ensures Inv(StepClient(s))
  {
    hide Serving, Turning;
    if s.client.Clear? {
      assert Writing(StepClient(s));
    } else {
      assert Reading(StepClient(s));
    }
  }

  lemma ServiceKeeps(s: State)
    requires Inv(s)
    ensures Inv(StepService(s))
  {
    if Serving(s) {
      ServiceServes(s);
    } else if Turning(s) {
      ServiceTurns(s);
    }
  }

  lemma ServiceServes(s: State)
    requires Inv(s) && Serving(s)
    ensures Inv(StepService(s))
  {
    hide Reading, Writing;
    if s.service.Release? {
      assert Turning(StepService(s));
    } else {
      assert Serving(StepService(s));
    }
  }

  lemma ServiceTurns(s: State)
    requires Inv(s) && Turning(s)
    ensures Inv(StepService(s))
  {
    hide Serving, Writing;
    assert Reading(StepService(s));
  }

  /** Every event but a reply timeout keeps the hand-over right. */
  lemma StepKeeps(s: State, e: Event)
    requires Inv(s) && !e.ReplyTimeout?
    ensures Inv(Step(s, e))
  {
    hide StepClient, StepService, Matched;
    match e
    case ClientStep => ClientKeeps(s);
    case ServiceStep => ServiceKeeps(s);
    case _ => CallKeeps(s, e);
  }

  lemma CallKeeps(s: State, e: Event)
    requires Inv(s) && !e.ReplyTimeout? && !e.ClientStep? && !e.ServiceStep?
    ensures Inv(Step(s, e))
  {
  }

  ghost function Run(s: State, es: seq<Event>): State
    decreases |es|
  {
    if es == [] || |s.ch.request| != 4096 || |s.ch.reply| != 4096 then s else Run(Step(s, es[0]), es[1..])
  }

  ghost predicate Fresh(s: State) {
    && |s.ch.request| == 4096 && |s.ch.reply| == 4096 && !s.ch.hasRequest && !s.ch.hasReply
    && s == State(s.ch, Idle, Resting, [], [], [], [], [], [])
  }

  lemma {:induction false} RunKeeps(s: State, es: seq<Event>)
    requires Inv(s) && forall e :: e in es ==> !e.ReplyTimeout?
    ensures Inv(Run(s, es))
    decreases |es|
  {
    hide Inv, Step;
    if es != [] {
      assert |s.ch.request| == 4096 && |s.ch.reply| == 4096 by {
        Sizes(s);
      }
      StepKeeps(s, es[0]);
      RunKeeps(Step(s, es[0]), es[1..]);
    }
  }

  lemma Sizes(s: State)
    requires Inv(s)
    ensures |s.ch.request| == 4096 && |s.ch.reply| == 4096
  {
  }

  /** In every interleaving without reply timeouts: the i-th send returns the i-th answer, the one
      made for its own request; the i-th receive gets the i-th request, so each is received once;
      the client never writes the request buffer while the service reads it, nor the service the
      reply buffer while the client reads it. */
  lemma EveryInterleaving(s: State, es: seq<Event>)
    requires Fresh(s) && forall e :: e in es ==> !e.ReplyTimeout?
    ensures var t := Run(s, es);
            && Matched(t) && |t.asked| <= |t.returned| + 1 && |t.answers| <= |t.taken| <= |t.answers| + 1
            && Separate(t)
  {
    assert Writing(s);
    RunKeeps(s, es);
  }
}
