/**
 * Recording the history of client calls (matrix/history/channel.cpp and the
 * recorder interface in matrix/history/recorder.hpp).
 *
 * The recorder's implementation is not part of this model: it is kept as the
 * log of notifications it receives, and it is assumed to hand out cookies
 * 0, 1, 2, ... from its counter. The wrapped RPC channel is not part of this
 * model either: a call forwarded to it is recorded, and its outcome arrives
 * later as a `CallResult`.
 */
module Histories {
  import opened Wrappers

  /** A finished call as the checker sees it: completed calls have an end
      time and an output. */
  datatype Call = Call(methodName: string, input: string, output: Option<string>, startTime: nat, endTime: Option<nat>)
  {
    predicate IsCompleted()
    {
      endTime.Some?
    }
  }

  type History = seq<Call>

  /** RPC error codes; only the two named ones may hide a completed call. */
  datatype ErrorCode = TransportError | ExecutionError | OtherError(code: nat)

  /** What the wrapped channel delivers for a call. */
  datatype CallResult = Ok(message: string) | Err(code: ErrorCode)

  /** What is recorded about a call once its result is known. */
  datatype Outcome = Completed(output: string) | Lost | Removed

  datatype RecorderEvent =
    | Started(cookie: nat, methodName: string, input: string)   // `CallStarted`
    | Labelled(cookie: nat, text: string)                      // `AddLabel`
    | CompletedWith(cookie: nat, output: string)               // `CallCompleted`
    | LostCall(cookie: nat)                                    // `CallLost`
    | RemovedCall(cookie: nat)                                 // `RemoveCall`
    | Finalized                                                // `Finalize`

  /** An error after which the call may or may not have taken effect. */
  predicate MaybeCompleted(e: ErrorCode)
    ensures MaybeCompleted(e) <==> e in {TransportError, ExecutionError}
  {
    e == TransportError || e == ExecutionError
  }

  /** `RecordCallResult`'s decision: an answer completes the call, an error
      that may hide an effect loses it, any other error removes it. */
  function Classify(result: CallResult): (o: Outcome)
    ensures o.Completed? <==> result.Ok?
    ensures o.Completed? ==> o.output == result.message
    ensures o.Lost? <==> result.Err? && MaybeCompleted(result.code)
    ensures o.Removed? <==> result.Err? && !MaybeCompleted(result.code)
  {
    match result
    case Ok(m) => Completed(m)
    case Err(e) => if MaybeCompleted(e) then Lost else Removed
  }

  /** The notification that records outcome `o` of call `cookie`. */
  function OutcomeEvent(cookie: nat, o: Outcome): (e: RecorderEvent)
    ensures e.CompletedWith? || e.LostCall? || e.RemovedCall?
    ensures e.cookie == cookie
  {
    match o
    case Completed(out) => CompletedWith(cookie, out)
    case Lost => LostCall(cookie)
    case Removed => RemovedCall(cookie)
  }

  class HistoryRecorder {
    var events: seq<RecorderEvent>
    var nextCookie: nat

    constructor ()
      ensures events == [] && nextCookie == 0
    {
      events := [];
      nextCookie := 0;
    }

    method CallStarted(methodName: string, input: string) returns (cookie: nat)
      modifies this
      ensures cookie == old(nextCookie) && nextCookie == cookie + 1
      ensures events == old(events) + [Started(cookie, methodName, input)]
    {
      cookie := nextCookie;
      nextCookie := nextCookie + 1;
      events := events + [Started(cookie, methodName, input)];
    }

    /** The world's last word: the history is complete. */
    method Finalize()
      modifies this
      ensures events == old(events) + [Finalized] && nextCookie == old(nextCookie)
    {
      events := events + [Finalized];
    }

    method Notify(e: RecorderEvent)
      modifies this
      ensures events == old(events) + [e] && nextCookie == old(nextCookie)
    {
      events := events + [e];
    }
  }

  /** The wrapped channel, reduced to what the history channel uses. */
  class Channel {
    const peer: string
    var forwarded: seq<(string, string)>   // (method, input) of each call
    var closed: bool

    constructor (peer: string)
      ensures this.peer == peer && forwarded == [] && !closed
    {
      this.peer := peer;
      forwarded := [];
      closed := false;
    }

    method Call(methodName: string, input: string)
      modifies this
      ensures forwarded == old(forwarded) + [(methodName, input)] && closed == old(closed)
    {
      forwarded := forwarded + [(methodName, input)];
    }

    method Close()
      modifies this
      ensures closed && forwarded == old(forwarded)
    {
      closed := true;
    }
  }

  /** A channel that records every call it forwards. */
  class HistoryChannel {
    const impl: Channel
    const recorder: HistoryRecorder

    constructor (impl: Channel, recorder: HistoryRecorder)
      ensures this.impl == impl && this.recorder == recorder
    {
      this.impl := impl;
      this.recorder := recorder;
    }

    function Peer(): (p: string)
      reads this
      ensures p == impl.peer
    {
      impl.peer
    }

    method Close()
      modifies impl
      ensures impl.closed && impl.forwarded == old(impl.forwarded)
    {
      impl.Close();
    }

    /** Records the start of the call (and its trace id, when there is one)
        before forwarding it; returns the cookie its result is recorded
        under. */
    method Call(methodName: string, input: string, traceId: string) returns (cookie: nat)
      modifies recorder, impl
      ensures cookie == old(recorder.nextCookie) && recorder.nextCookie == cookie + 1
      ensures recorder.events == old(recorder.events) + [Started(cookie, methodName, input)] +
        (if traceId == "" then [] else [Labelled(cookie, traceId)])
      ensures impl.forwarded == old(impl.forwarded) + [(methodName, input)] && impl.closed == old(impl.closed)
    {
      cookie := recorder.CallStarted(methodName, input);
      if traceId != "" {
        recorder.Notify(Labelled(cookie, traceId));
      }
      impl.Call(methodName, input);
    }

    /** Records the call's outcome: exactly one notification, about this
        cookie, of the kind `Classify` decides. */
    method RecordCallResult(cookie: nat, result: CallResult)
      modifies recorder
      ensures recorder.events == old(recorder.events) + [OutcomeEvent(cookie, Classify(result))]
      ensures recorder.nextCookie == old(recorder.nextCookie)
    {
      match result
      case Ok(m) =>
        recorder.Notify(CompletedWith(cookie, m));
      case Err(e) =>
        if MaybeCompleted(e) {
          recorder.Notify(LostCall(cookie));
        } else {
          recorder.Notify(RemovedCall(cookie));
        }
    }
  }
}
