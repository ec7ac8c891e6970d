/**
  The handoff between the client goroutine and ProcessJob over two unbuffered channels:
  internal/gen_client/client.go:30-64 and internal/service/grpc_generator/generator.go:219-230.
  Go's rules for channels are part of the model: a send meets a receive, a receive from a closed
  channel yields the zero value, a send on a closed channel and a second close panic.
 */
module Handoff {
  import opened Domain

  datatype Channel = Channel(open: bool, closes: nat)

  datatype Producer = Calling | SendingErr(d: Delivery) | SendingResponse(d: Delivery) | Exited

  /** `response` is None for a nil pointer. */
  datatype Consumer =
    | AwaitingErr
    | AwaitingResponse(err: Option<string>)
    | Finalising
    | ClosingResponse
    | ClosingErr
    | Cancelling
    | Left

  datatype Pair = Pair(err: Option<string>, response: Option<GenResponse>)

  datatype State = State(
    producer: Producer,
    consumer: Consumer,
    errChan: Channel,
    responseChan: Channel,
    received: Option<Pair>,
    panicked: bool)

  const INIT := State(Calling, AwaitingErr, Channel(true, 0), Channel(true, 0), None, false)

  datatype Action =
    | Return(d: Delivery)     // the gRPC call has ended and the pair to send is ready
    | PassErr
    | PassResponse
    | SendErrOnClosed
    | SendResponseOnClosed
    | ReceiveErrFromClosed
    | ReceiveResponseFromClosed
    | Finalise
    | CloseResponse
    | CloseErr
    | Cancel

  predicate Enabled(s: State, a: Action) {
    && !s.panicked
    && match a
       case Return(_) => s.producer.Calling?
       case PassErr => s.producer.SendingErr? && s.consumer.AwaitingErr? && s.errChan.open
       case PassResponse => s.producer.SendingResponse? && s.consumer.AwaitingResponse? && s.responseChan.open
       case SendErrOnClosed => s.producer.SendingErr? && !s.errChan.open
       case SendResponseOnClosed => s.producer.SendingResponse? && !s.responseChan.open
       case ReceiveErrFromClosed => s.consumer.AwaitingErr? && !s.errChan.open
       case ReceiveResponseFromClosed => s.consumer.AwaitingResponse? && !s.responseChan.open
       case Finalise => s.consumer.Finalising?
       case CloseResponse => s.consumer.ClosingResponse?
       case CloseErr => s.consumer.ClosingErr?
       case Cancel => s.consumer.Cancelling?
  }

  function Closed(ch: Channel): Channel {
    Channel(false, ch.closes + 1)
  }

  function Apply(s: State, a: Action): State
    requires Enabled(s, a)
  {
    match a
    case Return(d) => s.(producer := SendingErr(d))
    case PassErr => s.(producer := SendingResponse(s.producer.d), consumer := AwaitingResponse(s.producer.d.err))
    case PassResponse =>
      s.(producer := Exited, consumer := Finalising,
         received := Some(Pair(s.consumer.err, Some(s.producer.d.response))))
    case SendErrOnClosed => s.(panicked := true)
    case SendResponseOnClosed => s.(panicked := true)
    case ReceiveErrFromClosed => s.(consumer := AwaitingResponse(None))
    case ReceiveResponseFromClosed =>
      s.(consumer := Finalising, received := Some(Pair(s.consumer.err, None)))
    case Finalise => s.(consumer := ClosingResponse)
    // The deferred calls run last in, first out.
    case CloseResponse =>
      s.(consumer := ClosingErr, responseChan := Closed(s.responseChan), panicked := !s.responseChan.open)
    case CloseErr =>
      s.(consumer := Cancelling, errChan := Closed(s.errChan), panicked := !s.errChan.open)
    case Cancel => s.(consumer := Left)
  }

  ghost predicate IsRun(ss: seq<State>, acts: seq<Action>) {
    && |ss| == |acts| + 1 && ss[0] == INIT
    && forall k :: 0 <= k < |acts| ==> Enabled(ss[k], acts[k]) && ss[k + 1] == Apply(ss[k], acts[k])
  }

  predicate Done(s: State) {
    s.producer.Exited? && s.consumer.Left?
  }

  function ProducerRank(p: Producer): nat {
    match p
    case Calling => 3
    case SendingErr(_) => 2
    case SendingResponse(_) => 1
    case Exited => 0
  }

  function ConsumerRank(c: Consumer): nat {
    match c
    case AwaitingErr => 6
    case AwaitingResponse(_) => 5
    case Finalising => 4
    case ClosingResponse => 3
    case ClosingErr => 2
    case Cancelling => 1
    case Left => 0
  }

  function Rank(s: State): nat {
    ProducerRank(s.producer) + ConsumerRank(s.consumer)
  }

  /** How far the two goroutines are, jointly; `sent` is the pair the call produced, once it has. */
  predicate Inv(s: State, sent: Option<Delivery>) {
    && !s.panicked
    && (s.consumer.AwaitingErr? <==> s.producer.Calling? || s.producer.SendingErr?)
    && (s.consumer.AwaitingResponse? <==> s.producer.SendingResponse?)
    && (s.producer.Calling? <==> sent.None?)
    && (s.producer.SendingErr? || s.producer.SendingResponse? ==> sent == Some(s.producer.d))
    && (s.consumer.AwaitingResponse? ==> s.consumer.err == sent.value.err)
    && (s.producer.Exited? ==> s.received == Some(Pair(sent.value.err, Some(sent.value.response))))
    && (s.responseChan.open <==> ConsumerRank(s.consumer) >= 3)
    && (s.errChan.open <==> ConsumerRank(s.consumer) >= 2)
    && s.responseChan.closes == (if s.responseChan.open then 0 else 1)
    && s.errChan.closes == (if s.errChan.open then 0 else 1)
  }

  lemma StepKeepsInv(s: State, sent: Option<Delivery>, a: Action)
    requires Inv(s, sent) && Enabled(s, a)
    ensures Inv(Apply(s, a), if a.Return? then Some(a.d) else sent)
    ensures a.Return? ==> sent.None?
    ensures Rank(Apply(s, a)) < Rank(s)
  {
  }

  /** The pair produced by the gRPC call within the first `k` steps. */
  function SentBy(acts: seq<Action>): Option<Delivery> {
    if acts == [] then None
    else if acts[|acts| - 1].Return? then Some(acts[|acts| - 1].d)
    else SentBy(acts[..|acts| - 1])
  }

  lemma {:induction false} InvHolds(ss: seq<State>, acts: seq<Action>, k: nat)
    requires IsRun(ss, acts) && k < |ss|
    ensures Inv(ss[k], SentBy(acts[..k])) && Rank(ss[k]) + k <= Rank(INIT)
  {
    if k > 0 {
      InvHolds(ss, acts, k - 1);
      assert acts[..k][..k - 1] == acts[..k - 1];
      StepKeepsInv(ss[k - 1], SentBy(acts[..k - 1]), acts[k - 1]);
    }
  }

  /** No send or close ever panics, and no receive ever meets a closed channel. */
  lemma HandoffSafe(ss: seq<State>, acts: seq<Action>, k: nat)
    requires IsRun(ss, acts) && k < |ss|
    ensures !ss[k].panicked
    ensures !Enabled(ss[k], SendErrOnClosed) && !Enabled(ss[k], SendResponseOnClosed)
    ensures !Enabled(ss[k], ReceiveErrFromClosed) && !Enabled(ss[k], ReceiveResponseFromClosed)
    ensures ss[k].errChan.closes <= 1 && ss[k].responseChan.closes <= 1
  {
    InvHolds(ss, acts, k);
  }

  /**
    As long as either goroutine is unfinished some step is possible, where a call still pending
    may return any outcome; and every run has at most nine steps. So both always finish.
   */
  lemma NeverDeadlocks(ss: seq<State>, acts: seq<Action>, d: Delivery)
    requires IsRun(ss, acts)
    ensures |acts| <= Rank(INIT) == 9
    ensures Done(ss[|acts|]) <==> !(exists a :: Enabled(ss[|acts|], a))
    ensures ss[|acts|].producer.Calling? ==> Enabled(ss[|acts|], Return(d))
  {
    InvHolds(ss, acts, |acts|);
    var s := ss[|acts|];
    if !Done(s) {
      assert Enabled(s, Return(d)) || Enabled(s, PassErr) || Enabled(s, PassResponse) || Enabled(s, Finalise)
          || Enabled(s, CloseResponse) || Enabled(s, CloseErr) || Enabled(s, Cancel);
    }
  }

  /**
    From the moment finalisation can begin, ProcessJob has received exactly the pair that was
    sent, with a non-nil response; and once both have finished each channel was closed exactly
    once.
   */
  lemma HandoffDelivers(ss: seq<State>, acts: seq<Action>, k: nat)
    requires IsRun(ss, acts) && k < |ss|
    requires !ss[k].consumer.AwaitingErr? && !ss[k].consumer.AwaitingResponse?
    ensures SentBy(acts[..k]).Some?
    ensures ss[k].received == Some(Pair(SentBy(acts[..k]).value.err, Some(SentBy(acts[..k]).value.response)))
    ensures Done(ss[k]) ==> ss[k].errChan == Channel(false, 1) && ss[k].responseChan == Channel(false, 1)
  {
    InvHolds(ss, acts, k);
  }
}
