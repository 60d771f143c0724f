/** The mutation client's retries against a server that may or may not have applied a write it never confirmed.

    Idempotent methods are those of section 9.2.2 of RFC 9110; 429 is section 4 of RFC 6585. */
module Mutation {
  import opened Contracts

  const MAX_ATTEMPTS: nat := 3

  datatype Method = GET | POST | PUT | DELETE

  datatype Body = Empty | JsonObject | OtherJson | InvalidJson

  /** What one attempt was answered with: nothing usable, or a status and a body. */
  datatype Answer = TransportFailure | UnusableAnswer | Status(code: nat, body: Body)

  const TOO_MANY_REQUESTS: nat := 429
  const INTERNAL_SERVER_ERROR: nat := 500
  const NO_CONTENT: nat := 204
  const NOT_FOUND: nat := 404

  predicate Success(code: nat) {
    code in {200, 201, 202, 204}
  }

  predicate RetryableStatus(code: nat) {
    code in {TOO_MANY_REQUESTS, 502, 503, 504}
  }

  /** Whether an attempt answered so may have applied its write. */
  predicate MayApply(a: Answer) {
    match a
    case TransportFailure => true
    case UnusableAnswer => true
    case Status(code, _) => Success(code) || code >= INTERNAL_SERVER_ERROR
  }

  /** One attempt as the server saw it: the answer it gave, and whether it applied the write. */
  datatype Exchange = Exchange(answer: Answer, applied: bool)

  /** A server as assumed: a success applied the write, any other answer below 500 did not, the rest may have. */
  predicate Honest(e: Exchange) {
    && (e.applied ==> MayApply(e.answer))
    && (e.answer.Status? && Success(e.answer.code) ==> e.applied)
  }

  predicate HonestServer(exchanges: seq<Exchange>) {
    |exchanges| == MAX_ATTEMPTS && forall e | e in exchanges :: Honest(e)
  }

  function Applied(exchanges: seq<Exchange>): nat {
    if exchanges == [] then 0
    else Applied(exchanges[..|exchanges| - 1]) + (if exchanges[|exchanges| - 1].applied then 1 else 0)
  }

  // Sending one request.

  /** The final answer with whether an earlier attempt may have applied it, or a failure without one. */
  datatype Sent = Sent(code: nat, body: Body, ambiguous: bool) | Raised(outcomeUnknown: bool)

  predicate Write(verb: Method) {
    verb != GET
  }

  predicate Retryable(verb: Method, code: nat) {
    RetryableStatus(code) && (verb != POST || code == TOO_MANY_REQUESTS)
  }

  /** The attempt's answer is one the client retries. */
  predicate Retried(verb: Method, a: Answer) {
    match a
    case TransportFailure => verb != POST
    case UnusableAnswer => false
    case Status(code, _) => Retryable(verb, code)
  }

  ghost predicate AnyMayApply(exchanges: seq<Exchange>) {
    exists e :: e in exchanges && MayApply(e.answer)
  }

  /** What sending came to, after `used` attempts: every earlier one was retried, and the last one decides. */
  ghost predicate SentAfter(sent: Sent, used: nat, verb: Method, exchanges: seq<Exchange>)
    requires |exchanges| == MAX_ATTEMPTS
  {
    && 1 <= used <= MAX_ATTEMPTS
    && (forall k | 0 <= k < used - 1 :: Retried(verb, exchanges[k].answer))
    && var last := exchanges[used - 1].answer;
       && (Retried(verb, last) ==> used == MAX_ATTEMPTS)
       && (last.Status? <==> sent.Sent?)
       && (sent.Sent? ==> sent.code == last.code && sent.body == last.body
                          && (sent.ambiguous <==> Write(verb) && AnyMayApply(exchanges[..used - 1])))
       && (sent.Raised? ==> (sent.outcomeUnknown <==> Write(verb)))
  }

  lemma AnyMayApplySnoc(before: seq<Exchange>, e: Exchange)
    ensures AnyMayApply(before + [e]) <==> AnyMayApply(before) || MayApply(e.answer)
  {
    assert forall x :: x in before + [e] <==> x in before || x == e;
  }

  /** Send one request, retrying only where a retry cannot apply a write twice. */
  method Send(verb: Method, exchanges: seq<Exchange>) returns (sent: Sent, used: nat)
    requires |exchanges| == MAX_ATTEMPTS
    ensures SentAfter(sent, used, verb, exchanges)
  {
    var write := verb != GET;
    var ambiguous := false;
    for attempt := 1 to MAX_ATTEMPTS + 1
      invariant forall k | 0 <= k < attempt - 1 :: Retried(verb, exchanges[k].answer)
      invariant attempt <= MAX_ATTEMPTS
      invariant ambiguous <==> write && AnyMayApply(exchanges[..attempt - 1])
    {
      var last := attempt == MAX_ATTEMPTS;
      var answer := exchanges[attempt - 1].answer;
      assert exchanges[..attempt] == exchanges[..attempt - 1] + [exchanges[attempt - 1]];
      AnyMayApplySnoc(exchanges[..attempt - 1], exchanges[attempt - 1]);
      if answer.TransportFailure? {
        if verb == POST || last {
          return Raised(write), attempt;
        }
        ambiguous := ambiguous || write;
      } else if answer.UnusableAnswer? {
        return Raised(write), attempt;
      } else {
        var retryable := Retryable(verb, answer.code);
        if !retryable || last {
          return Sent(answer.code, answer.body, ambiguous), attempt;
        }
        ambiguous := ambiguous || (write && answer.code >= INTERNAL_SERVER_ERROR);
      }
    }
    assert false;
  }

  // What the callers make of it.

  /** A result, or a failure with whether the write may nevertheless have been applied. */
  datatype Outcome = Done | Failed(outcomeUnknown: bool)

  /** Classify the final answer: none of these successes, an unreadable one, or a result. */
  function Payload(code: nat, body: Body, ambiguous: bool, write: bool): Result<Body, Outcome> {
    if !Success(code) then Err(Failed(write && (ambiguous || code >= INTERNAL_SERVER_ERROR)))
    else if code == NO_CONTENT || body == Empty then Ok(Empty)
    else if body == InvalidJson then Err(Failed(write))
    else Ok(body)
  }

  method Create(exchanges: seq<Exchange>) returns (r: Outcome, used: nat)
    requires HonestServer(exchanges)
    ensures Judged(r, used, POST, exchanges)
    ensures Applied(exchanges[..used]) <= 1
  {
    var sent;
    sent, used := Send(POST, exchanges);
    PostAppliedOnce(sent, used, exchanges);
    FailureJudged(sent, used, POST, exchanges);
    if sent.Raised? {
      return Failed(sent.outcomeUnknown), used;
    }
    var payload := Payload(sent.code, sent.body, sent.ambiguous, true);
    if payload.Err? {
      return payload.error, used;
    }
    r := if payload.value == JsonObject then Done else Failed(true);
  }

  method Update(exchanges: seq<Exchange>) returns (r: Outcome, used: nat)
    requires HonestServer(exchanges)
    ensures Judged(r, used, PUT, exchanges)
  {
    var sent;
    sent, used := Send(PUT, exchanges);
    FailureJudged(sent, used, PUT, exchanges);
    if sent.Raised? {
      return Failed(sent.outcomeUnknown), used;
    }
    var payload := Payload(sent.code, sent.body, sent.ambiguous, true);
    r := if payload.Err? then payload.error else Done;
  }

  method Delete(exchanges: seq<Exchange>) returns (r: Outcome, used: nat)
    requires HonestServer(exchanges)
    ensures DeleteJudged(r, used, exchanges)
  {
    var sent;
    sent, used := Send(DELETE, exchanges);
    FailureJudged(sent, used, DELETE, exchanges);
    if sent.Raised? {
      return Failed(sent.outcomeUnknown), used;
    }
    if sent.ambiguous && sent.code == NOT_FOUND {
      return Done, used;
    }
    var payload := Payload(sent.code, sent.body, sent.ambiguous, true);
    r := if payload.Err? then payload.error else Done;
  }

  /** The final answer is a result: a create must answer with the object, any other write with nothing or readable JSON. */
  predicate Usable(verb: Method, a: Answer) {
    a.Status? && Success(a.code)
    && if verb == POST then a.code != NO_CONTENT && a.body == JsonObject
       else a.code == NO_CONTENT || a.body != InvalidJson
  }

  /** A retry found the object gone after an attempt that may have reached the server. */
  ghost predicate GoneAfter(used: nat, exchanges: seq<Exchange>)
    requires 1 <= used <= |exchanges|
  {
    && AnyMayApply(exchanges[..used - 1])
    && exchanges[used - 1].answer.Status? && exchanges[used - 1].answer.code == NOT_FOUND
  }

  /** Every attempt but the last was retried, and the last one was not unless no attempt was left. */
  predicate RetriedUntil(used: nat, verb: Method, exchanges: seq<Exchange>) {
    && 1 <= used <= |exchanges|
    && (forall k | 0 <= k < used - 1 :: Retried(verb, exchanges[k].answer))
    && (Retried(verb, exchanges[used - 1].answer) ==> used == MAX_ATTEMPTS)
  }

  /** Done exactly on a usable final answer, which confirms the write; a failure calls its outcome unknown exactly when
      the answers admit an application. */
  ghost predicate Judged(r: Outcome, used: nat, verb: Method, exchanges: seq<Exchange>) {
    && RetriedUntil(used, verb, exchanges)
    && (r.Done? <==> Usable(verb, exchanges[used - 1].answer))
    && (r.Done? ==> Confirmed(exchanges[used - 1]))
    && (r.Failed? ==> (r.outcomeUnknown <==> AnyMayApply(exchanges[..used])))
  }

  /** A delete is also done when a retry finds the object gone after an attempt that may have reached the server. */
  ghost predicate DeleteJudged(r: Outcome, used: nat, exchanges: seq<Exchange>) {
    && RetriedUntil(used, DELETE, exchanges)
    && (r.Done? <==> Usable(DELETE, exchanges[used - 1].answer) || GoneAfter(used, exchanges))
    && (r.Done? ==> Confirmed(exchanges[used - 1]) || GoneAfter(used, exchanges))
    && (r.Failed? ==> (r.outcomeUnknown <==> AnyMayApply(exchanges[..used])))
  }

  predicate Confirmed(e: Exchange) {
    e.applied && e.answer.Status? && Success(e.answer.code)
  }

  /** The last attempt splits off what came before. */
  lemma SplitLast(exchanges: seq<Exchange>, used: nat)
    requires 1 <= used <= |exchanges|
    ensures exchanges[..used] == exchanges[..used - 1] + [exchanges[used - 1]]
  {
  }

  lemma FailureJudged(sent: Sent, used: nat, verb: Method, exchanges: seq<Exchange>)
    requires HonestServer(exchanges) && Write(verb) && SentAfter(sent, used, verb, exchanges)
    ensures sent.Raised? ==> AnyMayApply(exchanges[..used])
    ensures sent.Sent? && !Success(sent.code)
        ==> ((sent.ambiguous || sent.code >= INTERNAL_SERVER_ERROR) <==> AnyMayApply(exchanges[..used]))
    ensures sent.Sent? && Success(sent.code) ==> Confirmed(exchanges[used - 1]) && AnyMayApply(exchanges[..used])
  {
    SplitLast(exchanges, used);
    AnyMayApplySnoc(exchanges[..used - 1], exchanges[used - 1]);
    assert exchanges[used - 1] in exchanges;
  }

  lemma {:induction false} NoneApplied(exchanges: seq<Exchange>)
    requires forall e | e in exchanges :: !e.applied
    ensures Applied(exchanges) == 0
  {
    if exchanges != [] {
      assert exchanges[|exchanges| - 1] in exchanges;
      NoneApplied(exchanges[..|exchanges| - 1]);
    }
  }

  /** A POST is retried only on 429, which proves nothing was processed: over all retries it applies at most once. */
  lemma PostAppliedOnce(sent: Sent, used: nat, exchanges: seq<Exchange>)
    requires HonestServer(exchanges) && SentAfter(sent, used, POST, exchanges)
    ensures Applied(exchanges[..used]) <= 1
    ensures forall k | 0 <= k < used - 1 :: !exchanges[k].applied
  {
    forall k | 0 <= k < used - 1
      ensures !exchanges[k].applied
    {
      assert exchanges[k] in exchanges && Honest(exchanges[k]);
    }
    NoneApplied(exchanges[..used - 1]);
    SplitLast(exchanges, used);
    assert exchanges[..used][..used - 1] == exchanges[..used - 1];
  }

  /** A write failure reported with a known outcome means that no attempt was applied. */
  lemma KnownFailureAppliedNothing(r: Outcome, used: nat, verb: Method, exchanges: seq<Exchange>)
    requires HonestServer(exchanges) && Judged(r, used, verb, exchanges)
    requires r == Failed(false)
    ensures Applied(exchanges[..used]) == 0
  {
    forall e | e in exchanges[..used]
      ensures !e.applied
    {
      assert Honest(e);
    }
    NoneApplied(exchanges[..used]);
  }

  /** And an unknown outcome is honest doubt: some server behaving as assumed gave these answers and applied the write. */
  lemma UnknownFailureAdmitsApplication(r: Outcome, used: nat, verb: Method, exchanges: seq<Exchange>)
    returns (other: seq<Exchange>)
    requires HonestServer(exchanges) && Judged(r, used, verb, exchanges)
    requires r == Failed(true)
    ensures HonestServer(other) && Applied(other[..used]) > 0
    ensures forall k | 0 <= k < MAX_ATTEMPTS :: other[k].answer == exchanges[k].answer
  {
    var e :| e in exchanges[..used] && MayApply(e.answer);
    var i :| 0 <= i < used && exchanges[i] == e;
    other := exchanges[i := Exchange(e.answer, true)];
    forall x | x in other
      ensures Honest(x)
    {
      assert x in exchanges || x == Exchange(e.answer, true);
    }
    AppliedSomewhere(other[..used], i);
  }

  lemma {:induction false} AppliedSomewhere(exchanges: seq<Exchange>, i: nat)
    requires i < |exchanges| && exchanges[i].applied
    ensures Applied(exchanges) > 0
  {
    if i < |exchanges| - 1 {
      AppliedSomewhere(exchanges[..|exchanges| - 1], i);
    }
  }

  // What the server then holds.

  /** The configuration one object has: it starts as `before`, and every applied update sets it to `wanted`. */
  function HeldAfter<V>(before: V, wanted: V, exchanges: seq<Exchange>): V {
    if exchanges == [] then before
    else if exchanges[|exchanges| - 1].applied then wanted
    else HeldAfter(before, wanted, exchanges[..|exchanges| - 1])
  }

  lemma {:induction false} HeldAfterApplied<V>(before: V, wanted: V, exchanges: seq<Exchange>)
    ensures HeldAfter(before, wanted, exchanges) == if Applied(exchanges) > 0 then wanted else before
  {
    if exchanges != [] {
      HeldAfterApplied(before, wanted, exchanges[..|exchanges| - 1]);
    }
  }

  /** However many attempts of an update were applied, a result means the server holds what was asked for, and a known
      failure that it still holds what it did. */
  lemma UpdateHolds<V>(before: V, wanted: V, r: Outcome, used: nat, exchanges: seq<Exchange>)
    requires HonestServer(exchanges) && Judged(r, used, PUT, exchanges)
    ensures r.Done? ==> HeldAfter(before, wanted, exchanges[..used]) == wanted
    ensures r == Failed(false) ==> HeldAfter(before, wanted, exchanges[..used]) == before
  {
    HeldAfterApplied(before, wanted, exchanges[..used]);
    if r.Done? {
      AppliedSomewhere(exchanges[..used], used - 1);
    }
    if r == Failed(false) {
      KnownFailureAppliedNothing(r, used, PUT, exchanges);
    }
  }

  /** The object is there until an applied delete, and a 404 is only answered when it is not. */
  ghost predicate NotFoundIsTrue(present: bool, exchanges: seq<Exchange>) {
    forall k | 0 <= k < |exchanges| && exchanges[k].answer.Status? && exchanges[k].answer.code == NOT_FOUND ::
      !HeldAfter(present, false, exchanges[..k])
  }

  /** A delete that is done left no object, including one a retry found gone. */
  lemma DeleteLeavesNothing(present: bool, r: Outcome, used: nat, exchanges: seq<Exchange>)
    requires HonestServer(exchanges) && DeleteJudged(r, used, exchanges) && NotFoundIsTrue(present, exchanges)
    requires r.Done?
    ensures !HeldAfter(present, false, exchanges[..used])
  {
    HeldAfterApplied(present, false, exchanges[..used]);
    SplitLast(exchanges, used);
    assert exchanges[..used][..used - 1] == exchanges[..used - 1];
    if Confirmed(exchanges[used - 1]) {
      AppliedSomewhere(exchanges[..used], used - 1);
    } else {
      assert !HeldAfter(present, false, exchanges[..used - 1]);
    }
  }


  // Which answers are tried again.

  /** An answer that leaves an idempotent request worth repeating: none at all, throttling, or a gateway's error. */
  predicate Passing(a: Answer) {
    a.TransportFailure? || (a.Status? && (a.code == 429 || a.code == 502 || a.code == 503 || a.code == 504))
  }

  /** The one answer that proves a request was not processed. */
  predicate Throttled(a: Answer) {
    a.Status? && a.code == 429
  }

  /** The first answer that is not to be tried again decides, whatever came before it: for a request that may be repeated
      any answer but a passing one, for a POST any answer but throttling. */
  lemma FirstAnswerDecides(sent: Sent, used: nat, verb: Method, exchanges: seq<Exchange>, k: nat)
    requires |exchanges| == MAX_ATTEMPTS && SentAfter(sent, used, verb, exchanges) && k < MAX_ATTEMPTS
    requires forall j | 0 <= j < k ::
               if verb == POST then Throttled(exchanges[j].answer) else Passing(exchanges[j].answer)
    requires var last := exchanges[k].answer;
             k == MAX_ATTEMPTS - 1 || !(if verb == POST then Throttled(last) else Passing(last))
    ensures used == k + 1
    ensures exchanges[k].answer.Status?
        ==> sent.Sent? && sent.code == exchanges[k].answer.code && sent.body == exchanges[k].answer.body
    ensures !exchanges[k].answer.Status? ==> sent == Raised(verb != GET)
  {
    assert forall j | 0 <= j < k :: Retried(verb, exchanges[j].answer);
    assert k < MAX_ATTEMPTS - 1 ==> !Retried(verb, exchanges[k].answer);
  }

  /** So a write that may be repeated is done whenever one of its attempts is answered well after only passing answers. */
  lemma RepeatableWriteGetsThrough(r: Outcome, used: nat, exchanges: seq<Exchange>, k: nat)
    requires HonestServer(exchanges) && Judged(r, used, PUT, exchanges) && k < MAX_ATTEMPTS
    requires (forall j | 0 <= j < k :: Passing(exchanges[j].answer)) && Usable(PUT, exchanges[k].answer)
    ensures r == Done && used == k + 1
  {
    assert forall j | 0 <= j < k :: Retried(PUT, exchanges[j].answer);
    assert !Retried(PUT, exchanges[k].answer);
  }

  /** What counts as usable: a success with the object itself for a create, and with nothing or readable JSON for any other
      write. */
  lemma UsableExactly(verb: Method, a: Answer)
    ensures Usable(verb, a)
       <==> && a.Status? && (a.code == 200 || a.code == 201 || a.code == 202 || a.code == 204)
            && (verb == POST ==> a.code != 204 && a.body == JsonObject)
            && (verb != POST && a.code != 204 ==> a.body in {Empty, JsonObject, OtherJson})
  {
  }

  /** No request is sent more than three times, and a 404 is the one failure a repeated delete takes for success. */
  lemma ThreeAttemptsAtMost(r: Outcome, used: nat, exchanges: seq<Exchange>)
    requires HonestServer(exchanges) && DeleteJudged(r, used, exchanges)
    ensures 1 <= used <= 3 && |exchanges| == 3
    ensures r.Done? && !Confirmed(exchanges[used - 1])
        ==> exchanges[used - 1].answer.Status? && exchanges[used - 1].answer.code == 404 && used > 1
  {
  }

  /** What a status leaves open of a write: after one of the four successes it was applied, after any other below 500 it
      was not, and from 500 on it may have been. */
  lemma StatusTells(code: nat, body: Body)
    ensures Honest(Exchange(Status(code, body), true)) <==> code in {200, 201, 202, 204} || code >= 500
    ensures Honest(Exchange(Status(code, body), false)) <==> code !in {200, 201, 202, 204}
  {
  }
}
