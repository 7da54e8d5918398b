/** The bounded retry loop of `_request` and the bounded body read (transport/client.py). */
module Retry {
  import opened Prelude

  /** What happens to the body of a response: its chunks, possibly cut off by a network error. */
  datatype Body = Body(chunks: seq<Bytes>, broken: bool)

  /** What one send can meet. */
  datatype Attempt =
    | NetworkError
    | Response(status: int, safeUrl: bool, body: Body)

  datatype Outcome =
    | Returned(status: int, content: Bytes)
    | Refused(status: int)
    | UnsafeRedirect
    | TooLarge
    | Exhausted

  datatype BodyRead = Complete(content: Bytes) | Oversized | Interrupted

  predicate RetriableStatus(status: int) { status in {408, 425, 500, 502, 503, 504} }

  /** The body fits: no prefix of its chunks exceeds the bound, which is when all of it does not. */
  function ReadBody(body: Body, maximum: nat): BodyRead {
    if |Concat(body.chunks)| > maximum then Oversized
    else if body.broken then Interrupted
    else Complete(Concat(body.chunks))
  }

  /** `_bounded_response`: stop as soon as the bound is exceeded, else read to the end or the break. */
  method BoundedResponse(body: Body, maximum: nat) returns (r: BodyRead)
    ensures r == ReadBody(body, maximum)
  {
    var content: Bytes := [];
    for i := 0 to |body.chunks|
      invariant content == Concat(body.chunks[..i]) && |content| <= maximum
    {
      ConcatTake(body.chunks, i);
      ConcatLonger(body.chunks, i + 1);
      content := content + body.chunks[i];
      if |content| > maximum { return Oversized; }
    }
    assert body.chunks[..|body.chunks|] == body.chunks;
    r := if body.broken then Interrupted else Complete(content);
  }

  /** An attempt that another attempt may follow. */
  predicate Transient(a: Attempt, maximum: nat) {
    || a.NetworkError?
    || (a.safeUrl && RetriableStatus(a.status))
    || (a.safeUrl && ReadBody(a.body, maximum).Interrupted?)
  }

  /** The answer of an attempt that is not, or cannot be, repeated. */
  function Verdict(a: Attempt, expected: set<int>, maximum: nat): Outcome {
    if a.NetworkError? then Exhausted
    else if !a.safeUrl then UnsafeRedirect
    else match ReadBody(a.body, maximum)
      case Oversized => if a.status in expected then TooLarge else Refused(a.status)
      case Interrupted => Exhausted
      case Complete(content) => if a.status in expected then Returned(a.status, content) else Refused(a.status)
  }

  /** `sends` attempts are made: all before the last were transient, and the last is final. */
  ghost predicate Stops(script: seq<Attempt>, maximum: nat, sends: nat) {
    && 1 <= sends <= |script|
    && (forall n :: 0 <= n < sends - 1 ==> Transient(script[n], maximum))
    && (sends < |script| ==> !Transient(script[sends - 1], maximum))
  }

  function Pow2(n: nat): nat { if n == 0 then 1 else 2 * Pow2(n - 1) }

  function Total(delays: seq<real>): real {
    if delays == [] then 0.0 else Total(delays[..|delays| - 1]) + delays[|delays| - 1]
  }

  /** The delays before attempts 2, 3, ... */
  function Backoff(n: nat): seq<real> {
    if n == 0 then [] else Backoff(n - 1) + [0.05 * Pow2(n - 1) as real]
  }

  /**
    `_request`, against any script of attempts, one per allowed attempt. Each send sees the next entry.
   */
  method Request(script: seq<Attempt>, retry: bool, maxAttempts: nat, expected: set<int>, maximum: nat)
    returns (r: Outcome, sends: nat, sleeps: seq<real>)
    requires |script| == (if retry then maxAttempts else 1) && maxAttempts >= 1
    ensures Stops(script, maximum, sends)
    ensures r == Verdict(script[sends - 1], expected, maximum)
    ensures sleeps == Backoff(sends - 1)
  {
    var attempts := if retry then maxAttempts else 1;
    sends, sleeps := 0, [];
    var attempt := 0;
    while attempt < attempts
      invariant 0 <= attempt == sends < attempts == |script|
      invariant forall n :: 0 <= n < sends ==> Transient(script[n], maximum)
      invariant sleeps == Backoff(sends)
      decreases attempts - attempt
    {
      var a := script[sends];
      sends := sends + 1;
      if a.NetworkError? {
        if attempt + 1 == attempts { break; }
        sleeps := sleeps + [0.05 * Pow2(attempt) as real];
        attempt := attempt + 1;
        continue;
      }
      if !a.safeUrl { return UnsafeRedirect, sends, sleeps; }
      if RetriableStatus(a.status) && attempt + 1 < attempts {
        sleeps := sleeps + [0.05 * Pow2(attempt) as real];
        attempt := attempt + 1;
        continue;
      }
      var body := BoundedResponse(a.body, maximum);
      if body.Oversized? {
        return if a.status in expected then TooLarge else Refused(a.status), sends, sleeps;
      }
      if body.Interrupted? {
        if attempt + 1 == attempts { break; }
        sleeps := sleeps + [0.05 * Pow2(attempt) as real];
        attempt := attempt + 1;
        continue;
      }
      return if a.status in expected then Returned(a.status, body.content) else Refused(a.status), sends, sleeps;
    }
    r := Exhausted;
  }

  /**
    What a request does, attempt by attempt: it goes on after a network error, after one of the retriable
    statuses and after a body that broke off within the bound, and after nothing else; and what it makes of
    the attempt it stops at.
   */
  lemma RequestMeans(script: seq<Attempt>, expected: set<int>, maximum: nat, sends: nat)
    requires Stops(script, maximum, sends)
    ensures forall n :: 0 <= n < sends ==>
              var a := script[n];
              var again := a.NetworkError?
                           || (a.safeUrl && a.status in {408, 425, 500, 502, 503, 504})
                           || (a.safeUrl && a.body.broken && |Concat(a.body.chunks)| <= maximum);
              if n < sends - 1 then again else n + 1 < |script| ==> !again
    ensures var a, r := script[sends - 1], Verdict(script[sends - 1], expected, maximum);
            if a.NetworkError? then r == Exhausted
            else if !a.safeUrl then r == UnsafeRedirect
            else if |Concat(a.body.chunks)| > maximum then
              r == if a.status in expected then TooLarge else Refused(a.status)
            else if a.body.broken then r == Exhausted
            else r == if a.status in expected then Returned(a.status, Concat(a.body.chunks)) else Refused(a.status)
  {
    hide Concat;
    forall n | 0 <= n < sends - 1 ensures Transient(script[n], maximum) {}
  }

  lemma {:induction false} BackoffTotal(n: nat)
    ensures |Backoff(n)| == n && Total(Backoff(n)) == 0.05 * (Pow2(n) - 1) as real
  {
    if n > 0 {
      BackoffTotal(n - 1);
      assert Backoff(n)[..n - 1] == Backoff(n - 1);
    }
  }

  lemma {:induction false} Pow2Grows(m: nat, n: nat)
    requires m <= n
    ensures Pow2(m) <= Pow2(n)
    decreases n
  {
    if m < n { Pow2Grows(m, n - 1); }
  }

  lemma BackoffBound(m: nat, n: nat)
    requires m <= n
    ensures Total(Backoff(m)) <= 0.05 * (Pow2(n) - 1) as real
  {
    hide Total, Backoff, Pow2;
    BackoffTotal(m);
    Pow2Grows(m, n);
  }

  /**
    Bounded retries: one send without retry and at most the maximum with it; a returned status is an
    expected one with a complete body within the bound; the total delay stays below
    0.05 * (2^(attempts - 1) - 1).
   */
  lemma RequestBounded(script: seq<Attempt>, expected: set<int>, maximum: nat, sends: nat)
    requires Stops(script, maximum, sends)
    ensures sends <= |script| && (|script| == 1 ==> sends == 1)
    ensures Total(Backoff(sends - 1)) <= 0.05 * (Pow2(|script| - 1) - 1) as real
    ensures var r := Verdict(script[sends - 1], expected, maximum);
            r.Returned? ==> r.status in expected && |r.content| <= maximum
                            && script[sends - 1].Response? && script[sends - 1].status == r.status
                            && r.content == Concat(script[sends - 1].body.chunks)
  {
    BackoffBound(sends - 1, |script| - 1);
  }
}
