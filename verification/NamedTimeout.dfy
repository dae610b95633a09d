/**
  What giving up on a reply does to the named channel: from every state in which a client waits,
  the next request it sends can be given the answer to the one it gave up on.
*/
module NamedTimeout {
  import opened Numbers
  import opened NamedChannel

  ghost predicate Patient(es: seq<Event>) {
    forall e :: e in es ==> !e.ReplyTimeout?
  }

  ghost predicate Sized(s: State) {
    |s.ch.request| == 4096 && |s.ch.reply| == 4096
  }

  // ---- Runs ----

  lemma {:induction false} RunSplit(s: State, a: seq<Event>, b: seq<Event>)
    requires Sized(s)
    ensures Sized(Run(s, a)) && Run(s, a + b) == Run(Run(s, a), b)
    decreases |a|
  {
    hide StepClient, StepService;
    if a == [] {
      assert a + b == b;
    } else {
      assert (a + b)[1..] == a[1..] + b;
      StepSized(s, a[0]);
      RunSplit(Step(s, a[0]), a[1..], b);
    }
  }

  lemma StepSized(s: State, e: Event)
    requires Sized(s)
    ensures Sized(Step(s, e))
  {
  }

  /** One event, then a run. */
  lemma RunFrom(s: State, e: Event, es: seq<Event>)
    requires Sized(s)
    ensures Run(s, [e] + es) == Run(Step(s, e), es)
  {
    assert ([e] + es)[1..] == es;
  }

  // ---- The client ----

  /** Copying the bytes of the request that are left. */
  lemma {:induction false} PutRest(s: State) returns (es: seq<Event>)
    requires Sized(s) && s.client.Put? && s.client.done <= |s.client.data| <= 4096
    ensures Patient(es)
    ensures var t := Run(s, es);
            |t.ch.request| == 4096 && t == s.(ch := s.ch.(request := t.ch.request), client := PutLength(s.client.data))
    decreases |s.client.data| - s.client.done
  {
    var rest := [];
    var s1 := Step(s, ClientStep);
    if s.client.done < |s.client.data| {
      rest := PutRest(s1);
    }
    es := [ClientStep] + rest;
    RunFrom(s, ClientStep, rest);
  }

  /** A send that finds no request pending posts its own. */
  lemma Posts(s: State) returns (es: seq<Event>)
    requires Sized(s) && s.client.AwaitFree? && |s.client.data| <= 4096 && !s.ch.hasRequest
    ensures Patient(es)
    ensures var t, data := Run(s, es), s.client.data;
            && |t.ch.request| == 4096
            && t == s.(ch := s.ch.(request := t.ch.request, requestLength := |data|, hasRequest := true),
                       client := AwaitReply(data), asked := s.asked + [data])
  {
    var e := ClientStep;
    var s1 := Step(s, e);
    var copy := PutRest(s1);
    var s2 := Run(s1, copy);
    var s3 := Step(s2, e);
    hide Run;
    es := [e] + (copy + ([e] + ([e] + [])));
    RunFrom(s, e, copy + ([e] + ([e] + [])));
    RunSplit(s1, copy, [e] + ([e] + []));
    RunFrom(s2, e, [e] + []);
    RunFrom(s3, e, []);
    RunNothing(Step(s3, e));
  }

  lemma RunNothing(s: State)
    ensures Run(s, []) == s
  {
  }

  /** Copying the bytes of the reply that are left. */
  lemma {:induction false} GetRest(s: State, a: seq<Byte>) returns (es: seq<Event>)
    requires Sized(s) && s.client.Get? && Holds(s.ch.reply, a, |a|) && s.client.length == Min(|a|, |s.client.data|)
    requires |s.client.copied| <= s.client.length && s.client.copied == a[..|s.client.copied|]
    ensures Patient(es)
    ensures Run(s, es) == s.(client := Clear(s.client.data, Cut(a, |s.client.data|)))
    decreases s.client.length - |s.client.copied|
  {
    var rest := [];
    var s1 := Step(s, ClientStep);
    if |s.client.copied| < s.client.length {
      rest := GetRest(s1, a);
    } else {
      assert a[..|a|] == a;
    }
    es := [ClientStep] + rest;
    RunFrom(s, ClientStep, rest);
  }

  /** A send that finds a reply announced returns it, whosever it is. */
  lemma Reads(s: State, a: seq<Byte>) returns (es: seq<Event>)
    requires Sized(s) && s.client.AwaitReply? && s.ch.hasReply && Holds(s.ch.reply, a, |a|) && s.ch.replyLength == |a|
    ensures Patient(es)
    ensures Run(s, es) == s.(ch := s.ch.(hasReply := false), client := Idle, sent := s.sent + [|s.asked| - 1],
                             returned := s.returned + [Cut(a, |s.client.data|)])
  {
    var e := ClientStep;
    var s1 := Step(s, e);
    var s2 := Step(s1, e);
    var copy := GetRest(s2, a);
    var s3 := Run(s2, copy);
    hide Run;
    es := [e] + ([e] + (copy + ([e] + [])));
    RunFrom(s, e, [e] + (copy + ([e] + [])));
    RunFrom(s1, e, copy + ([e] + []));
    RunSplit(s2, copy, [e] + []);
    RunFrom(s3, e, []);
    RunNothing(Step(s3, e));
  }

  // ---- The service ----

  /** Copying the bytes of the request that are left, whatever the room. */
  lemma {:induction false} TakeRest(s: State) returns (es: seq<Event>)
    requires Sized(s) && s.service.Take?
    ensures Patient(es)
    ensures var t := Run(s, es);
            |t.taken| == |s.taken| + 1 &&
              t == s.(service := Holding, rooms := s.rooms + [s.service.room], taken := t.taken)
    decreases Min(s.service.length, 4096) - |s.service.copied|
  {
    var rest := [];
    var s1 := Step(s, ServiceStep);
    if |s.service.copied| < s.service.length && |s.service.copied| < 4096 {
      rest := TakeRest(s1);
    }
    es := [ServiceStep] + rest;
    RunFrom(s, ServiceStep, rest);
  }

  lemma {:induction false} FillRest(s: State) returns (es: seq<Event>)
    requires Sized(s) && s.service.Fill? && Holds(s.ch.reply, s.service.data, s.service.done)
    ensures Patient(es)
    ensures var t, data := Run(s, es), s.service.data;
            Holds(t.ch.reply, data, |data|) && t == s.(ch := s.ch.(reply := t.ch.reply), service := FillLength(data))
    decreases |s.service.data| - s.service.done
  {
    var rest := [];
    var s1 := Step(s, ServiceStep);
    if s.service.done < |s.service.data| {
      rest := FillRest(s1);
    }
    es := [ServiceStep] + rest;
    RunFrom(s, ServiceStep, rest);
  }

  // ---- After the client gave up ----

  /** Every request was received and answered and the last answer is announced, but the send that
      posted the last request did not return. */
  ghost predicate Stale(v: State, asked: seq<seq<Byte>>, sent: seq<int>, returned: seq<seq<Byte>>) {
    && Sized(v) && v.client == Idle && !v.ch.hasRequest && v.ch.hasReply && Waiting(v.service)
    && v.asked == asked && v.sent == sent && v.returned == returned && |v.taken| == |v.answers| == |asked| > 0
    && var a := v.answers[|v.answers| - 1]; Holds(v.ch.reply, a, |a|) && v.ch.replyLength == |a|
  }

  /** The service is somewhere between the request and the answer, and the client has gone. */
  ghost predicate Deserted(v: State) {
    && Sized(v) && v.client == Idle && v.ch.hasRequest && !v.ch.hasReply && |v.asked| == |v.answers| + 1
    && match v.service
    case Resting => |v.taken| == |v.answers|
    case AwaitRequest(_) => |v.taken| == |v.answers|
    case TakeLength(_) => |v.taken| == |v.answers|
    case Take(_, _, _) => |v.taken| == |v.answers|
    case Holding => |v.taken| == |v.asked|
    case Fill(data, j) => |v.taken| == |v.asked| && Holds(v.ch.reply, data, j)
    case FillLength(data) => |v.taken| == |v.asked| && Holds(v.ch.reply, data, |data|)
    case Release(data) => |v.taken| == |v.asked| && Holds(v.ch.reply, data, |data|) && v.ch.replyLength == |data|
    case Announce(_) => false
  }

  lemma Announces(v: State) returns (es: seq<Event>)
    requires Deserted(v) && (v.service.FillLength? || v.service.Release?)
    ensures Patient(es) && Stale(Run(v, es), v.asked, v.sent, v.returned)
  {
    var e := ServiceStep;
    var v1 := if v.service.FillLength? then Step(v, e) else v;
    var v2 := Step(v1, e);
    var v3 := Step(v2, e);
    assert Stale(v3, v.asked, v.sent, v.returned);
    hide Run, Stale, Step;
    es := [e] + ([e] + []);
    RunFrom(v1, e, [e] + []);
    RunFrom(v2, e, []);
    RunNothing(v3);
    if v.service.FillLength? {
      es := [e] + es;
      RunFrom(v, e, [e] + ([e] + []));
    }
  }

  lemma Replies(v: State, answer: seq<Byte>) returns (es: seq<Event>)
    requires Deserted(v) && (v.service.Holding? || v.service.Fill?) && |answer| <= 4096
    ensures Patient(es) && Stale(Run(v, es), v.asked, v.sent, v.returned)
  {
    var v1 := if v.service.Holding? then Step(v, CallReply(answer)) else v;
    var fill := FillRest(v1);
    var v2 := Run(v1, fill);
    var last := Announces(v2);
    hide Run, Stale, Step, Deserted;
    es := fill + last;
    RunSplit(v1, fill, last);
    if v.service.Holding? {
      RunFrom(v, CallReply(answer), es);
      es := [CallReply(answer)] + es;
    }
  }

  lemma Receives(v: State, answer: seq<Byte>) returns (es: seq<Event>)
    requires Deserted(v) && (v.service.TakeLength? || v.service.Take?) && |answer| <= 4096
    ensures Patient(es) && Stale(Run(v, es), v.asked, v.sent, v.returned)
  {
    var e := ServiceStep;
    var v1 := if v.service.TakeLength? then Step(v, e) else v;
    var take := TakeRest(v1);
    var v2 := Run(v1, take);
    var last := Replies(v2, answer);
    hide Run, Stale, Step, Deserted;
    es := take + last;
    RunSplit(v1, take, last);
    if v.service.TakeLength? {
      RunFrom(v, e, es);
      es := [e] + es;
    }
  }

  /** Wherever the service is, it can carry on until its answer is announced. */
  lemma Answers(v: State, answer: seq<Byte>) returns (es: seq<Event>)
    requires Deserted(v) && |answer| <= 4096
    ensures Patient(es) && Stale(Run(v, es), v.asked, v.sent, v.returned)
  {
    if v.service.FillLength? || v.service.Release? {
      es := Announces(v);
    } else if v.service.Holding? || v.service.Fill? {
      es := Replies(v, answer);
    } else if v.service.TakeLength? || v.service.Take? {
      es := Receives(v, answer);
    } else {
      var v1 := if v.service.Resting? then Step(v, CallReceive(0)) else v;
      var v2 := Step(v1, ServiceStep);
      var last := Receives(v2, answer);
      hide Run, Stale, Step, Deserted;
      es := [ServiceStep] + last;
      RunFrom(v1, ServiceStep, last);
      if v.service.Resting? {
        RunFrom(v, CallReceive(0), es);
        es := [CallReceive(0)] + es;
      }
    }
  }

  /** The next send finds the old answer and returns it. */
  lemma NextSendCrosses(v: State, asked: seq<seq<Byte>>, sent: seq<int>, returned: seq<seq<Byte>>, data: seq<Byte>)
      returns (es: seq<Event>)
    requires Stale(v, asked, sent, returned) && |data| <= 4096
    ensures Patient(es)
    ensures var t := Run(v, es);
            && t.asked == asked + [data] && t.answers == v.answers && t.taken == v.taken
            && t.sent == sent + [|asked|] && t.returned == returned + [Cut(v.answers[|asked| - 1], |data|)]
  {
    var a := v.answers[|v.answers| - 1];
    var v1 := Step(v, CallSend(data));
    var post := Posts(v1);
    var v2 := Run(v1, post);
    var read := Reads(v2, a);
    hide Run, Step, Holds;
    es := [CallSend(data)] + (post + read);
    RunFrom(v, CallSend(data), post + read);
    RunSplit(v1, post, read);
  }

  /** From every state in which a client waits for its reply: it gives up, and its next request,
      whatever it is, gets the answer to the request it gave up on, before the service has received
      it. */
  lemma LateAnswerCrosses(s: State, data: seq<Byte>, answer: seq<Byte>) returns (es: seq<Event>)
    requires Inv(s) && s.client.AwaitReply? && |data| <= 4096 && |answer| <= 4096
    ensures Patient(es)
    ensures var t := Run(Step(s, ReplyTimeout), es);
            && t.asked == s.asked + [data] && |t.taken| == |t.answers| == |s.asked| > 0
            && t.sent == s.sent + [|s.asked|] && t.returned == s.returned + [Cut(t.answers[|s.asked| - 1], |data|)]
            && !Paired(t)
  {
    var v := Step(s, ReplyTimeout);
    var wait := ReachesStale(s, answer);
    hide Run, Inv;
    RunSplit(v, wait, []);
    var u := Run(v, wait);
    var next := NextSendCrosses(u, s.asked, s.sent, s.returned, data);
    es := wait + next;
    RunSplit(v, wait, next);
    var t := Run(v, es);
    Crossed(t, |s.sent|);
  }

  lemma ReachesStale(s: State, answer: seq<Byte>) returns (es: seq<Event>)
    requires Inv(s) && s.client.AwaitReply? && |answer| <= 4096
    ensures Sized(s) && Patient(es) && Stale(Run(Step(s, ReplyTimeout), es), s.asked, s.sent, s.returned)
  {
    var v := Step(s, ReplyTimeout);
    if Serving(s) {
      hide Turning, Reading, Writing;
      es := Answers(v, answer);
    } else if Turning(s) {
      es := [ServiceStep] + [];
      RunFrom(v, ServiceStep, []);
    } else {
      es := [];
    }
  }

  /** A send that returned without its own request answered is not paired. */
  lemma Crossed(t: State, i: nat)
    requires i < |t.sent| && t.sent[i] >= |t.answers|
    ensures !Paired(t)
  {
    if |t.sent| == |t.returned| {
      assert !PairedSend(t.asked, t.answers, t.sent[i], t.returned[i]);
    }
  }

  /** A reply timeout leaves requests and replies paired in everything that can follow, without
      another one, if and only if nobody was waiting for a reply. */
  lemma TimeoutPairsIff(s: State)
    requires Inv(s)
    ensures Sized(s)
    ensures (forall es :: Patient(es) ==> Paired(Run(Step(s, ReplyTimeout), es))) <==> !s.client.AwaitReply?
  {
    Sizes(s);
    if s.client.AwaitReply? {
      var es := LateAnswerCrosses(s, [1], [2]);
      assert Patient(es) && !Paired(Run(Step(s, ReplyTimeout), es));
    } else {
      forall es | Patient(es)
        ensures Paired(Run(Step(s, ReplyTimeout), es))
      {
        RunKeeps(s, es);
      }
    }
  }

  // ---- The buffers ----

  /** The next send finds the old answer, and before it reads it the service receives the new
      request and starts to answer. */
  lemma NextSendClashes(v: State, asked: seq<seq<Byte>>, sent: seq<int>, returned: seq<seq<Byte>>, data: seq<Byte>,
                        answer: seq<Byte>)
      returns (es: seq<Event>)
    requires Stale(v, asked, sent, returned) && |data| <= 4096 && |answer| <= 4096
    ensures Patient(es)
    ensures var t := Run(v, es); t.client == GetLength(data) && t.service == Fill(answer, 0) && !Separate(t)
  {
    var v1 := Step(v, CallSend(data));
    var post := Posts(v1);
    var v2 := Run(v1, post);
    var v3 := Step(v2, ClientStep);
    var take := TakesUp(v3);
    var v4 := Run(v3, take);
    hide Run, Stale;
    RunNothing(Step(v4, CallReply(answer)));
    RunFrom(v4, CallReply(answer), []);
    RunSplit(v3, take, [CallReply(answer)] + []);
    RunFrom(v2, ClientStep, take + ([CallReply(answer)] + []));
    RunSplit(v1, post, [ClientStep] + (take + ([CallReply(answer)] + [])));
    RunFrom(v, CallSend(data), post + ([ClientStep] + (take + ([CallReply(answer)] + []))));
    es := [CallSend(data)] + (post + ([ClientStep] + (take + ([CallReply(answer)] + []))));
  }

  /** A service that has not seen the request posted receives it. */
  lemma TakesUp(v: State) returns (es: seq<Event>)
    requires Sized(v) && v.ch.hasRequest && Waiting(v.service)
    ensures Patient(es)
    ensures var t := Run(v, es); Sized(t) && t.service == Holding && t.client == v.client
  {
    var e := ServiceStep;
    var v1 := if v.service.Resting? then Step(v, CallReceive(0)) else v;
    var v2 := Step(v1, e);
    var v3 := Step(v2, e);
    var take := TakeRest(v3);
    hide Run;
    es := [e] + ([e] + take);
    RunFrom(v2, e, take);
    RunFrom(v1, e, [e] + take);
    if v.service.Resting? {
      RunFrom(v, CallReceive(0), es);
      es := [CallReceive(0)] + es;
    }
  }

  /** The same condition for the buffers: a reply timeout leaves neither buffer to be written while
      the other side reads it if and only if nobody was waiting for a reply. */
  lemma TimeoutSeparatesIff(s: State)
    requires Inv(s)
    ensures Sized(s)
    ensures (forall es :: Patient(es) ==> Separate(Run(Step(s, ReplyTimeout), es))) <==> !s.client.AwaitReply?
  {
    Sizes(s);
    if s.client.AwaitReply? {
      var es := LateAnswerClashes(s, [], []);
      assert Patient(es) && !Separate(Run(Step(s, ReplyTimeout), es));
    } else {
      forall es | Patient(es)
        ensures Separate(Run(Step(s, ReplyTimeout), es))
      {
        RunKeeps(s, es);
        InvSeparate(Run(s, es));
      }
    }
  }

  /** From every state in which a client waits for its reply: it gives up, and the service writes
      the answer to its next request while it reads the reply. */
  lemma LateAnswerClashes(s: State, data: seq<Byte>, answer: seq<Byte>) returns (es: seq<Event>)
    requires Inv(s) && s.client.AwaitReply? && |data| <= 4096 && |answer| <= 4096
    ensures Patient(es)
    ensures var t := Run(Step(s, ReplyTimeout), es);
            t.client == GetLength(data) && t.service == Fill(answer, 0) && !Separate(t)
  {
    var v := Step(s, ReplyTimeout);
    var wait := ReachesStale(s, answer);
    hide Run, Inv;
    RunSplit(v, wait, []);
    var u := Run(v, wait);
    var next := NextSendClashes(u, s.asked, s.sent, s.returned, data, answer);
    es := wait + next;
    RunSplit(v, wait, next);
  }

  /** From a fresh channel: one send, given up on, and the next send gets its answer. */
  lemma FreshCrosses(s: State, first: seq<Byte>, second: seq<Byte>, answer: seq<Byte>)
      returns (before: seq<Event>, after: seq<Event>)
    requires Fresh(s) && |first| <= 4096 && |second| <= 4096 && |answer| <= 4096
    ensures Patient(before) && Patient(after)
    ensures var t := Run(s, before + ([ReplyTimeout] + after));
            && t.asked == [first, second] && |t.taken| == |t.answers| == 1 && t.sent == [1]
            && t.returned == [Cut(t.answers[0], |second|)] && !Paired(t)
  {
    var s1 := Step(s, CallSend(first));
    var post := Posts(s1);
    before := [CallSend(first)] + post;
    RunFrom(s, CallSend(first), post);
    var s2 := Run(s, before);
    assert Writing(s);
    RunKeeps(s, before);
    after := LateAnswerCrosses(s2, second, answer);
    hide Run, Inv, Paired;
    RunSplit(s, before, [ReplyTimeout] + after);
    RunFrom(s2, ReplyTimeout, after);
  }

  // ---- What no timeout breaks ----

  /** A client writes only while no request is pending, and a pending request stands in the buffer as
      it was posted. */
  ghost predicate RequestKept(s: State) {
    && Sized(s)
    && (s.ch.hasRequest ==>
          |s.asked| > 0 && var data := s.asked[|s.asked| - 1];
          Holds(s.ch.request, data, |data|) && s.ch.requestLength == |data|)
    && match s.client
    case Put(data, j) => !s.ch.hasRequest && Holds(s.ch.request, data, j)
    case PutLength(data) => !s.ch.hasRequest && Holds(s.ch.request, data, |data|)
    case Post(data) => !s.ch.hasRequest && Holds(s.ch.request, data, |data|) && s.ch.requestLength == |data|
    case AwaitFree(data) => |data| <= 4096
    case _ => true
  }

  lemma StepKeepsRequest(s: State, e: Event)
    requires RequestKept(s)
    ensures RequestKept(Step(s, e))
  {
    if e == ServiceStep {
      ServiceKeepsRequest(s);
    }
  }

  lemma ServiceKeepsRequest(s: State)
    requires RequestKept(s)
    ensures RequestKept(StepService(s))
  {
  }

  /** In every interleaving whatsoever, with any timeouts, a request that is posted stays as it is
      until the service has released it. */
  lemma {:induction false} EveryRequestKept(s: State, es: seq<Event>)
    requires RequestKept(s)
    ensures RequestKept(Run(s, es))
    decreases |es|
  {
    hide Step, RequestKept;
    if es != [] && |s.ch.request| == 4096 && |s.ch.reply| == 4096 {
      StepKeepsRequest(s, es[0]);
      EveryRequestKept(Step(s, es[0]), es[1..]);
    }
  }

  lemma FreshKept(s: State)
    requires Fresh(s)
    ensures RequestKept(s)
  {
  }
}
