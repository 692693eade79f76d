/** The notifier as mutable objects: a worker per webhook, proved against the state machine of module Notify. */
module NotifierImpl {
  import opened Alert
  import opened Notify

  // The answer to one POST: success, a transport failure, or a non-2xx status.
  datatype PostResult = Accepted | TransportError | Status(code: int)

  // Whether repeating a failed POST can change its answer.
  predicate Retryable(r: PostResult) {
    r.TransportError? || (r.Status? && (r.code == 408 || r.code == 429 || r.code < 400 || r.code >= 500))
  }

  function Pow2(n: nat): (p: nat)
    ensures p >= 1
  {
    if n == 0 then 1 else 2 * Pow2(n - 1)
  }

  // The waits add up, in units of the first: nothing, then each wait as long again as the one before.
  lemma WaitsDouble(n: nat)
    ensures Pow2(0) - 1 == 0
    ensures Pow2(n + 1) - 1 == Pow2(n) - 1 + Pow2(n) && Pow2(n + 2) - Pow2(n + 1) == 2 * (Pow2(n + 1) - Pow2(n))
    ensures Pow2(1) - 1 == 1 && Pow2(2) - 1 == 1 + 2 && Pow2(3) - 1 == 1 + 2 + 4
  {
  }

  // The delivery loop ends with attempt k: it succeeded, was rejected for good, used up the retries, or the wait after
  // it was cut short.
  predicate Ends(p: Policy, post: nat -> PostResult, slept: nat -> bool, k: nat) {
    || !Retryable(post(k))
    || k >= p.maxRetries
    || (p.backoff > 0 && !slept(k))
  }

  // The number of posts is that of the first attempt at which the loop ends.
  ghost predicate PostedUntilEnd(p: Policy, post: nat -> PostResult, slept: nat -> bool, posts: nat) {
    && 1 <= posts
    && Ends(p, post, slept, posts - 1)
    && (forall k :: 0 <= k < posts - 1 ==> !Ends(p, post, slept, k))
  }

  // Which attempt is the last: one that is accepted, or rejected with a status of 400 to 499 that does not invite a
  // repetition, as 408 and 429 do; failing that the one after the last retry, or one whose wait is cut short.
  lemma LastAttempt(p: Policy, post: nat -> PostResult, slept: nat -> bool, posts: nat, k: nat)
    requires PostedUntilEnd(p, post, slept, posts) && k < posts
    ensures posts == k + 1
       <==> (|| post(k) == Accepted
             || (exists code :: post(k) == Status(code) && 400 <= code <= 499 && code != 408 && code != 429)
             || k >= p.maxRetries
             || (p.backoff > 0 && !slept(k)))
  {
    assert Ends(p, post, slept, k) <==> posts == k + 1;
    if post(k).Status? {
      assert post(k) == Status(post(k).code);
    }
  }

  // Hence, while retries are left and the waits run their course, the answer alone decides.
  lemma AnswerDecides(p: Policy, post: nat -> PostResult, slept: nat -> bool, posts: nat, k: nat)
    requires PostedUntilEnd(p, post, slept, posts) && k < p.maxRetries && forall j :: 0 <= j <= k ==> slept(j)
    requires forall j :: 0 <= j < k ==>
               post(j) == TransportError
               || exists code :: post(j) == Status(code) && (code == 408 || code == 429 || code < 400 || code > 499)
    ensures k < posts
    ensures posts == k + 1
       <==> (|| post(k) == Accepted
             || exists code :: post(k) == Status(code) && 400 <= code <= 499 && code != 408 && code != 429)
  {
    var last := if posts <= k then posts - 1 else k;
    LastAttempt(p, post, slept, posts, last);
  }

  class WebhookWorker {
    const minLevel: Level
    var queue: seq<Event>
    var lastSent: map<Stream, int>

    ghost function Value(): Worker
      reads this
    {
      Worker(minLevel, queue, lastSent)
    }

    constructor (minLevel: Level)
      ensures Value() == Start(minLevel).worker
    {
      this.minLevel := minLevel;
      queue := [];
      lastSent := map[];
    }
  }

  // What offering a batch of events does to one worker.
  ghost function OfferAll(w: Worker, c: Policy, events: seq<Event>): Worker {
    if |events| == 0 then w else OfferTo(OfferAll(w, c, events[..|events| - 1]), c, events[|events| - 1])
  }

  class Notifier {
    const policy: Policy
    const workers: seq<WebhookWorker>

    ghost predicate Valid() {
      forall i, j :: 0 <= i < j < |workers| ==> workers[i] != workers[j]
    }

    // Fans the events out, event by event and webhook by webhook; each webhook's queue depends on its own state alone.
    method NotifyAll(events: seq<Event>)
      requires Valid()
      modifies workers
      ensures forall i :: 0 <= i < |workers| ==> workers[i].Value() == OfferAll(old(workers[i].Value()), policy, events)
    {
      for n := 0 to |events|
        invariant forall i :: 0 <= i < |workers| ==>
                    workers[i].Value() == OfferAll(old(workers[i].Value()), policy, events[..n])
      {
        assert events[..n + 1][..n] == events[..n];
        OfferOne(events[n]);
      }
      assert events[..|events|] == events;
    }

    method OfferOne(ev: Event)
      requires Valid()
      modifies workers
      ensures forall i :: 0 <= i < |workers| ==> workers[i].Value() == OfferTo(old(workers[i].Value()), policy, ev)
    {
      for k := 0 to |workers|
        invariant forall i :: 0 <= i < k ==> workers[i].Value() == OfferTo(old(workers[i].Value()), policy, ev)
        invariant forall i :: k <= i < |workers| ==> workers[i].Value() == old(workers[i].Value())
      {
        var w := workers[k];
        if EventReaches(ev, w.minLevel) && |w.queue| < policy.queueSize {
          w.queue := w.queue + [ev];
        }
      }
    }

    method IsRateLimited(w: WebhookWorker, ev: Event) returns (limited: bool)
      ensures limited == RateLimited(w.Value(), policy.minInterval, ev)
    {
      if policy.minInterval <= 0 {
        return false;
      }
      limited := ev.id in w.lastSent && ev.at - w.lastSent[ev.id] < policy.minInterval;
    }

    method MarkSent(w: WebhookWorker, ev: Event)
      modifies w`lastSent
      ensures w.Value() == RecordSent(old(w.Value()), policy.minInterval, ev)
    {
      if policy.minInterval > 0 {
        w.lastSent := w.lastSent[ev.id := ev.at];
      }
    }

    // The worker's goroutine: take the oldest event and dispatch it. No other worker is in the frame, nothing is posted
    // for a suppressed or unrenderable event, and anything else is posted until the delivery loop ends.
    method Work(w: WebhookWorker, rendered: bool, post: nat -> PostResult, slept: nat -> bool)
      returns (attempt: Attempt, posts: nat)
      requires w.queue != []
      modifies w
      ensures w.Value() == Dispatch(old(w.Value()).(queue := old(w.queue)[1..]), policy, old(w.queue)[0], attempt)
      ensures if Suppressed(old(w.Value()), policy.minInterval, old(w.queue)[0]) || !rendered then posts == 0
              else PostedUntilEnd(policy, post, slept, posts) && (attempt == Delivered <==> post(posts - 1) == Accepted)
      ensures !rendered ==> attempt != Delivered
    {
      var ev := w.queue[0];
      w.queue := w.queue[1..];
      var limited := false;
      if ev.kind != Cleared {
        limited := IsRateLimited(w, ev);
      }
      if limited {
        return DeliveryFailed, 0;
      }
      if !rendered {
        return RenderFailed, 0;
      }
      var ok, waited;
      ok, posts, waited := Deliver(post, slept);
      if ok {
        MarkSent(w, ev);
      }
      attempt := if ok then Delivered else DeliveryFailed;
    }

    // post(k) is the answer to attempt k, slept(k) whether the wait after it ran its course. The waits double each
    // time.
    method Deliver(post: nat -> PostResult, slept: nat -> bool) returns (ok: bool, posts: nat, waited: int)
      ensures 1 <= posts <= (if policy.maxRetries > 0 then policy.maxRetries else 0) + 1
      ensures PostedUntilEnd(policy, post, slept, posts)
      ensures ok <==> post(posts - 1) == Accepted
      ensures waited == if policy.backoff > 0 then policy.backoff * (Pow2(posts - 1) - 1) else 0
    {
      var backoff := policy.backoff;
      posts := 0;
      waited := 0;
      while true
        invariant 0 <= posts && (posts > 0 ==> posts <= policy.maxRetries)
        invariant forall k :: 0 <= k < posts ==> !Ends(policy, post, slept, k)
        invariant backoff == policy.backoff * Pow2(posts)
        invariant waited == if policy.backoff > 0 then policy.backoff * (Pow2(posts) - 1) else 0
        decreases policy.maxRetries - posts
      {
        var attempt := posts;
        var answer := post(attempt);
        posts := posts + 1;
        if answer == Accepted {
          return true, posts, waited;
        }
        if !Retryable(answer) || attempt >= policy.maxRetries {
          return false, posts, waited;
        }
        if backoff > 0 {
          if !slept(attempt) {
            return false, posts, waited;
          }
          waited := waited + backoff;
        }
        backoff := backoff * 2;
      }
    }
  }
}
