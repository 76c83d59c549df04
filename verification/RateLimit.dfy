/**
 The in-process sliding-window limiter: one queue of accepted hit times per key.
 `history` is every request answered so far; the simple form of the policy filters
 it in full, the class keeps only the queues.
 */
module SlidingWindow {

  datatype Hit = Hit(key: string, at: real, ok: bool)

  /** The times at which `key` was accepted, oldest first. */
  function Accepted(h: seq<Hit>, key: string): seq<real> {
    if |h| == 0 then []
    else
      var e := h[|h| - 1];
      var front := Accepted(h[..|h| - 1], key);
      if e.key == key && e.ok then front + [e.at] else front
  }

  /** The times not earlier than `from`. */
  function Recent(times: seq<real>, from: real): seq<real> {
    if |times| == 0 then []
    else
      var t := times[|times| - 1];
      var front := Recent(times[..|times| - 1], from);
      if t < from then front else front + [t]
  }

  /** The policy in its simple form: fewer than `maxHits` acceptances in the closed trailing window. */
  predicate Admit(maxHits: int, window: real, h: seq<Hit>, key: string, now: real) {
    |Recent(Accepted(h, key), now - window)| < maxHits
  }

  ghost predicate Sorted(times: seq<real>) {
    forall i, j :: 0 <= i < j < |times| ==> times[i] <= times[j]
  }

  /** Time never runs backwards in `h`, and every answer is the one the simple policy gives. */
  ghost predicate Obeys(maxHits: int, window: real, h: seq<Hit>) {
    && (forall i, j :: 0 <= i < j < |h| ==> h[i].at <= h[j].at)
    && (forall i :: 0 <= i < |h| ==> Answered(maxHits, window, h, i))
  }

  /** Request `i` got the answer of the simple policy over the requests before it. */
  ghost predicate Answered(maxHits: int, window: real, h: seq<Hit>, i: nat)
    requires i < |h|
  {
    h[i].ok <==> Admit(maxHits, window, h[..i], h[i].key, h[i].at)
  }

  /**
   The queue `q` stands for the accepted times: from time `now` on, no window can tell the
   two apart. The queue itself is sorted and never longer than the limit.
   */
  ghost predicate Agrees(maxHits: int, window: real, accepted: seq<real>, q: seq<real>, now: real) {
    && |q| <= Cap(maxHits)
    && |q| <= |accepted|
    && Sorted(q)
    && (|q| > 0 ==> q[|q| - 1] <= now)
    && (forall from: real :: now - window <= from ==> Recent(q, from) == Recent(accepted, from))
  }

  /** The queue stored for `key`; a key never seen has the empty one. */
  function QueueOf(hits: map<string, seq<real>>, key: string): seq<real> {
    if key in hits then hits[key] else []
  }

  /** The stored queues agree with the history. */
  ghost predicate Consistent(maxHits: int, window: real, hits: map<string, seq<real>>, h: seq<Hit>) {
    Obeys(maxHits, window, h) && QueuesAgree(maxHits, window, hits, h)
  }

  ghost predicate QueuesAgree(maxHits: int, window: real, hits: map<string, seq<real>>, h: seq<Hit>) {
    forall key :: QueueAgrees(maxHits, window, hits, h, key)
  }

  ghost predicate QueueAgrees(maxHits: int, window: real, hits: map<string, seq<real>>, h: seq<Hit>, key: string) {
    Agrees(maxHits, window, Accepted(h, key), QueueOf(hits, key), LastTime(h))
  }

  class SlidingWindowLimiter {
    const maxHits: int
    const window: real
    var hits: map<string, seq<real>>
    ghost var history: seq<Hit>

    ghost predicate Valid()
      reads this
    {
      Consistent(maxHits, window, hits, history)
    }

    constructor (maxHits: int, window: real)
      ensures Valid() && history == [] && hits == map[]
      ensures this.maxHits == maxHits && this.window == window
    {
      this.maxHits := maxHits;
      this.window := window;
      hits := map[];
      history := [];
    }

    /** One request at time `now`; `ok` is false where the source raises 429. */
    method Check(key: string, now: real) returns (ok: bool)
      requires Valid()
      requires |history| > 0 ==> LastTime(history) <= now
      modifies this
      ensures Valid()
      ensures ok <==> Admit(maxHits, window, old(history), key, now)
      ensures history == old(history) + [Hit(key, now, ok)]
      ensures var recent := Recent(Accepted(old(history), key), now - window);
              && hits == old(hits)[key := if ok then recent + [now] else recent]
              && Sorted(hits[key]) && |hits[key]| <= Cap(maxHits)
    {
      var q := PopExpired(key, now);
      ok := |q| < maxHits;
      StepConsistent(maxHits, window, hits, history, key, q, now);
      q := if ok then q + [now] else q;
      hits := hits[key := q];
      history := history + [Hit(key, now, ok)];
    }

    /** The popleft loop: what stays in the queue is what the trailing window accepted. */
    method PopExpired(key: string, now: real) returns (q: seq<real>)
      requires Valid()
      requires |history| > 0 ==> LastTime(history) <= now
      ensures q == Recent(Accepted(history, key), now - window)
      ensures Sorted(q) && |q| <= Cap(maxHits) && (|q| > 0 ==> q[|q| - 1] <= now)
    {
      assert QueueAgrees(maxHits, window, hits, history, key);
      AgreesLater(maxHits, window, history, key, QueueOf(hits, key), now);
      q := PopWhileExpired(maxHits, window, QueueOf(hits, key), now, Accepted(history, key));
    }

    static method PopWhileExpired(ghost maxHits: int, window: real, queue: seq<real>, now: real, ghost acc: seq<real>)
      returns (q: seq<real>)
      requires Agrees(maxHits, window, acc, queue, now)
      ensures q == Recent(acc, now - window)
      ensures Sorted(q) && |q| <= Cap(maxHits) && (|q| > 0 ==> q[|q| - 1] <= now)
    {
      q := queue;
      while |q| > 0 && now - q[0] > window
        invariant Agrees(maxHits, window, acc, q, now)
        decreases |q|
      {
        AgreesAfterPop(maxHits, window, acc, q, now);
        q := q[1..];
      }
      PoppedIsRecent(maxHits, window, acc, q, now);
    }
  }

  function Cap(maxHits: int): nat {
    if maxHits > 0 then maxHits else 0
  }

  // ---------- the queue agrees with the filtered history ----------

  lemma {:induction false} ObeysPrefix(maxHits: int, window: real, h: seq<Hit>, n: nat)
    requires Obeys(maxHits, window, h) && n <= |h|
    ensures Obeys(maxHits, window, h[..n])
  {
    forall i | 0 <= i < n
      ensures Answered(maxHits, window, h[..n], i)
    {
      assert Answered(maxHits, window, h, i);
      assert h[..n][..i] == h[..i];
    }
  }

  lemma {:induction false} ObeysExtended(maxHits: int, window: real, h: seq<Hit>, e: Hit)
    requires Obeys(maxHits, window, h) && (|h| > 0 ==> h[|h| - 1].at <= e.at)
    requires e.ok <==> Admit(maxHits, window, h, e.key, e.at)
    ensures Obeys(maxHits, window, h + [e])
  {
    var after := h + [e];
    forall i | 0 <= i < |after|
      ensures Answered(maxHits, window, after, i)
    {
      if i < |h| {
        assert after[..i] == h[..i] && Answered(maxHits, window, h, i);
      } else {
        assert after[..i] == h;
      }
    }
  }

  /** A sorted list whose front is recent is recent throughout. */
  lemma {:induction false} RecentIsAll(times: seq<real>, from: real)
    requires Sorted(times) && (|times| > 0 ==> from <= times[0])
    ensures Recent(times, from) == times
    decreases |times|
  {
    if |times| != 0 {
      var n := |times| - 1;
      RecentIsAll(times[..n], from);
      assert times == times[..n] + [times[n]];
    }
  }

  /** A front that is too old to be recent can be popped unnoticed. */
  lemma {:induction false} PopFront(times: seq<real>, from: real)
    requires |times| > 0 && times[0] < from
    ensures Recent(times[1..], from) == Recent(times, from)
    decreases |times|
  {
    var n := |times| - 1;
    if n != 0 {
      PopFront(times[..n], from);
      assert times[1..][..n - 1] == times[..n][1..];
    }
  }

  lemma {:induction false} AcceptedOfAppend(h: seq<Hit>, e: Hit, key: string)
    ensures Accepted(h + [e], key)
         == if e.key == key && e.ok then Accepted(h, key) + [e.at] else Accepted(h, key)
  {
    assert (h + [e])[..|h|] == h;
  }

  lemma {:induction false} RecentOfAppend(times: seq<real>, t: real, from: real)
    ensures Recent(times + [t], from) == if t < from then Recent(times, from) else Recent(times, from) + [t]
  {
    assert (times + [t])[..|times|] == times;
  }

  ghost function LastTime(h: seq<Hit>): real {
    if |h| > 0 then h[|h| - 1].at else 0.0
  }

  lemma {:induction false} AgreesLater(maxHits: int, window: real, h: seq<Hit>, key: string, q: seq<real>, now: real)
    requires Agrees(maxHits, window, Accepted(h, key), q, LastTime(h))
    requires |h| > 0 ==> LastTime(h) <= now
    ensures Agrees(maxHits, window, Accepted(h, key), q, now)
  {
  }

  lemma {:induction false} AgreesAfterPop(maxHits: int, window: real, acc: seq<real>, q: seq<real>, now: real)
    requires Agrees(maxHits, window, acc, q, now) && |q| > 0 && now - q[0] > window
    ensures Agrees(maxHits, window, acc, q[1..], now)
  {
    forall from: real | now - window <= from ensures Recent(q[1..], from) == Recent(acc, from) {
      PopFront(q, from);
    }
  }

  lemma {:induction false} PoppedIsRecent(maxHits: int, window: real, acc: seq<real>, q: seq<real>, now: real)
    requires Agrees(maxHits, window, acc, q, now) && (|q| > 0 ==> now - q[0] <= window)
    ensures q == Recent(acc, now - window)
    ensures Sorted(q) && |q| <= Cap(maxHits) && (|q| > 0 ==> q[|q| - 1] <= now)
  {
    RecentIsAll(q, now - window);
  }

  lemma {:induction false} AgreesAfterAppend(maxHits: int, window: real, acc: seq<real>, q: seq<real>, now: real)
    requires Agrees(maxHits, window, acc, q, now) && |q| < maxHits
    ensures Agrees(maxHits, window, acc + [now], q + [now], now)
  {
    forall from: real | now - window <= from ensures Recent(q + [now], from) == Recent(acc + [now], from) {
      RecentOfAppend(q, now, from);
      RecentOfAppend(acc, now, from);
    }
  }

  /** The recent accepted times stand for all accepted times. */
  lemma {:induction false} RecentAgrees(acc: seq<real>, from: real, later: real)
    requires from <= later
    ensures Recent(Recent(acc, from), later) == Recent(acc, later)
    ensures |Recent(acc, from)| <= |acc|
    decreases |acc|
  {
    if |acc| != 0 {
      var n := |acc| - 1;
      RecentAgrees(acc[..n], from, later);
      RecentOfAppend(Recent(acc[..n], from), acc[n], later);
    }
  }

  lemma {:induction false} OtherQueueAgrees(maxHits: int, window: real, hits: map<string, seq<real>>, h: seq<Hit>,
                         e: Hit, q': seq<real>, other: string)
    requires other != e.key && (|h| > 0 ==> LastTime(h) <= e.at)
    requires QueueAgrees(maxHits, window, hits, h, other)
    ensures QueueAgrees(maxHits, window, hits[e.key := q'], h + [e], other)
  {
    AcceptedOfAppend(h, e, other);
    AgreesLater(maxHits, window, h, other, QueueOf(hits, other), e.at);
  }

  lemma {:induction false} OwnQueueAgrees(maxHits: int, window: real, hits: map<string, seq<real>>, h: seq<Hit>,
                                          e: Hit, q: seq<real>)
    requires q == Recent(Accepted(h, e.key), e.at - window) && (e.ok <==> |q| < maxHits)
    requires Sorted(q) && |q| <= Cap(maxHits) && (|q| > 0 ==> q[|q| - 1] <= e.at)
    ensures var q' := if e.ok then q + [e.at] else q;
            QueueAgrees(maxHits, window, hits[e.key := q'], h + [e], e.key) && Sorted(q') && |q'| <= Cap(maxHits)
  {
    var acc := Accepted(h, e.key);
    FilteredAgrees(maxHits, window, acc, q, e.at);
    AcceptedOfAppend(h, e, e.key);
    if e.ok {
      AgreesAfterAppend(maxHits, window, acc, q, e.at);
    }
  }

  /** What the filter leaves stands for the whole list. */
  lemma {:induction false} FilteredAgrees(maxHits: int, window: real, acc: seq<real>, q: seq<real>, now: real)
    requires q == Recent(acc, now - window) && Sorted(q) && |q| <= Cap(maxHits) && (|q| > 0 ==> q[|q| - 1] <= now)
    ensures Agrees(maxHits, window, acc, q, now)
  {
    RecentAgrees(acc, now - window, now - window);
    forall from: real | now - window <= from ensures Recent(q, from) == Recent(acc, from) {
      RecentAgrees(acc, now - window, from);
    }
  }

  /** Answering one request by the length of the popped queue keeps queues and history consistent. */
  lemma {:induction false} StepConsistent(maxHits: int, window: real, hits: map<string, seq<real>>, h: seq<Hit>,
                       key: string, q: seq<real>, now: real)
    requires Consistent(maxHits, window, hits, h) && (|h| > 0 ==> LastTime(h) <= now)
    requires q == Recent(Accepted(h, key), now - window)
    requires Sorted(q) && |q| <= Cap(maxHits) && (|q| > 0 ==> q[|q| - 1] <= now)
    ensures var ok := |q| < maxHits;
            var q' := if ok then q + [now] else q;
            && Consistent(maxHits, window, hits[key := q'], h + [Hit(key, now, ok)])
            && Sorted(q') && |q'| <= Cap(maxHits)
  {
    var e := Hit(key, now, |q| < maxHits);
    var q' := if e.ok then q + [now] else q;
    ObeysExtended(maxHits, window, h, e);
    OwnQueueAgrees(maxHits, window, hits, h, e, q);
    AllQueuesAgree(maxHits, window, hits, h, e, q');
  }

  lemma {:induction false} AllQueuesAgree(maxHits: int, window: real, hits: map<string, seq<real>>, h: seq<Hit>,
                                          e: Hit, q': seq<real>)
    requires QueuesAgree(maxHits, window, hits, h) && (|h| > 0 ==> LastTime(h) <= e.at)
    requires QueueAgrees(maxHits, window, hits[e.key := q'], h + [e], e.key)
    ensures QueuesAgree(maxHits, window, hits[e.key := q'], h + [e])
  {
    var hits', h' := hits[e.key := q'], h + [e];
    forall key ensures QueueAgrees(maxHits, window, hits', h', key) {
      if key != e.key {
        OtherQueueAgrees(maxHits, window, hits, h, e, q', key);
      }
    }
  }

  // ---------- counting selections ----------

  /** How many requests of `key` picked by `sel` fall into the closed interval `[lo, hi]`. */
  ghost function CountIn(h: seq<Hit>, key: string, sel: seq<bool>, lo: real, hi: real): nat
    requires |sel| == |h|
    decreases |h|
  {
    if |h| == 0 then 0
    else
      var n := |h| - 1;
      CountIn(h[..n], key, sel[..n], lo, hi)
      + (if h[n].key == key && sel[n] && lo <= h[n].at <= hi then 1 else 0)
  }

  /** How many requests of `key` are picked by `sel`. */
  ghost function Count(h: seq<Hit>, key: string, sel: seq<bool>): nat
    requires |sel| == |h|
    decreases |h|
  {
    if |h| == 0 then 0
    else
      var n := |h| - 1;
      Count(h[..n], key, sel[..n]) + (if h[n].key == key && sel[n] then 1 else 0)
  }

  /** The limiter's own selection. */
  ghost function Verdicts(h: seq<Hit>): (sel: seq<bool>)
    ensures |sel| == |h| && forall i :: 0 <= i < |h| ==> sel[i] == h[i].ok
  {
    seq(|h|, i requires 0 <= i < |h| => h[i].ok)
  }

  /** A selection with at most `maxHits` picks of `key` in every closed interval of length `window`. */
  ghost predicate Feasible(maxHits: int, window: real, h: seq<Hit>, key: string, sel: seq<bool>)
    requires |sel| == |h|
  {
    forall a: real, b: real :: b == a + window ==> CountIn(h, key, sel, a, b) <= Cap(maxHits)
  }

  lemma {:induction false} CountInWider(h: seq<Hit>, key: string, sel: seq<bool>, lo: real, hi: real,
                                       lo': real, hi': real)
    requires |sel| == |h| && lo' <= lo
    requires hi <= hi' || forall i :: 0 <= i < |h| ==> h[i].at <= hi'
    ensures CountIn(h, key, sel, lo, hi) <= CountIn(h, key, sel, lo', hi')
    decreases |h|
  {
    if |h| != 0 {
      CountInWider(h[..|h| - 1], key, sel[..|h| - 1], lo, hi, lo', hi');
    }
  }

  /** The trailing-window count of the simple policy is a count over the history. */
  lemma {:induction false} RecentIsCount(h: seq<Hit>, key: string, from: real, now: real)
    requires forall i :: 0 <= i < |h| ==> h[i].at <= now
    ensures |Recent(Accepted(h, key), from)| == CountIn(h, key, Verdicts(h), from, now)
    decreases |h|
  {
    if |h| != 0 {
      var n := |h| - 1;
      RecentIsCount(h[..n], key, from, now);
      assert Verdicts(h)[..n] == Verdicts(h[..n]);
      RecentOfAppend(Accepted(h[..n], key), h[n].at, from);
    }
  }

  // ---------- safety: no interval is overfull ----------

  /** Every closed interval of length `window` holds at most `maxHits` acceptances of each key. */
  lemma {:induction false} LimiterIsFeasible(maxHits: int, window: real, h: seq<Hit>, key: string)
    requires Obeys(maxHits, window, h)
    ensures Feasible(maxHits, window, h, key, Verdicts(h))
    decreases |h|
  {
    if |h| != 0 {
      var n := |h| - 1;
      ObeysPrefix(maxHits, window, h, n);
      LimiterIsFeasible(maxHits, window, h[..n], key);
      assert Verdicts(h)[..n] == Verdicts(h[..n]);
      forall a: real, b: real | b == a + window ensures CountIn(h, key, Verdicts(h), a, b) <= Cap(maxHits) {
        var now := h[n].at;
        assert CountIn(h[..n], key, Verdicts(h[..n]), a, b) <= Cap(maxHits);
        if h[n].key == key && h[n].ok && a <= now <= b {
          CountInWider(h[..n], key, Verdicts(h[..n]), a, b, now - window, now);
          RecentIsCount(h[..n], key, now - window, now);
          assert Answered(maxHits, window, h, n);
        }
      }
    }
  }

  // ---------- optimality ----------

  /** The number of requests strictly before `from`. */
  ghost function Before(h: seq<Hit>, from: real): (p: nat)
    ensures p <= |h|
  {
    if |h| == 0 then 0 else if h[|h| - 1].at < from then |h| else Before(h[..|h| - 1], from)
  }

  /** Picks before `from` plus picks in the trailing window are all picks. */
  lemma {:induction false} SplitCount(h: seq<Hit>, key: string, sel: seq<bool>, from: real, now: real)
    requires |sel| == |h|
    requires forall i, j :: 0 <= i < j < |h| ==> h[i].at <= h[j].at
    requires forall i :: 0 <= i < |h| ==> h[i].at <= now
    ensures var p := Before(h, from);
            Count(h, key, sel) == Count(h[..p], key, sel[..p]) + CountIn(h, key, sel, from, now)
    decreases |h|
  {
    if |h| != 0 {
      var n := |h| - 1;
      var p := Before(h, from);
      if h[n].at < from {
        assert h[..p] == h && sel[..p] == sel;
        NothingRecent(h, key, sel, from, now);
      } else {
        SplitCount(h[..n], key, sel[..n], from, now);
        assert h[..n][..p] == h[..p] && sel[..n][..p] == sel[..p];
      }
    }
  }

  lemma {:induction false} NothingRecent(h: seq<Hit>, key: string, sel: seq<bool>, from: real, now: real)
    requires |sel| == |h| && forall i :: 0 <= i < |h| ==> h[i].at < from
    ensures CountIn(h, key, sel, from, now) == 0
    decreases |h|
  {
    if |h| != 0 {
      NothingRecent(h[..|h| - 1], key, sel[..|h| - 1], from, now);
    }
  }

  lemma {:induction false} CountInPrefix(h: seq<Hit>, key: string, sel: seq<bool>, n: nat, lo: real, hi: real)
    requires |sel| == |h| && n <= |h|
    ensures CountIn(h[..n], key, sel[..n], lo, hi) <= CountIn(h, key, sel, lo, hi)
    decreases |h|
  {
    if n < |h| {
      var m := |h| - 1;
      CountInPrefix(h[..m], key, sel[..m], n, lo, hi);
      assert h[..m][..n] == h[..n] && sel[..m][..n] == sel[..n];
    } else {
      assert h[..n] == h && sel[..n] == sel;
    }
  }

  lemma {:induction false} FeasiblePrefix(maxHits: int, window: real, h: seq<Hit>, key: string, sel: seq<bool>,
                                          n: nat)
    requires |sel| == |h| && n <= |h| && Feasible(maxHits, window, h, key, sel)
    ensures Feasible(maxHits, window, h[..n], key, sel[..n])
  {
    forall a: real, b: real | b == a + window ensures CountIn(h[..n], key, sel[..n], a, b) <= Cap(maxHits) {
      CountInPrefix(h, key, sel, n, a, b);
    }
  }

  /**
   No feasible selection of the same requests ever gets ahead: over the whole history the
   limiter has accepted at least as many requests of `key` as any rival.
   */
  lemma {:induction false} GreedyIsAhead(maxHits: int, window: real, h: seq<Hit>, key: string, rival: seq<bool>)
    requires Obeys(maxHits, window, h) && window >= 0.0
    requires |rival| == |h| && Feasible(maxHits, window, h, key, rival)
    ensures Count(h, key, rival) <= Count(h, key, Verdicts(h))
    decreases |h|, 1
  {
    if |h| != 0 {
      var n := |h| - 1;
      if h[n].key == key && rival[n] && !h[n].ok {
        var p := Before(h, h[n].at - window);
        PrefixAhead(maxHits, window, h, key, rival, p);
        AheadAtRejection(maxHits, window, h, key, rival);
      } else {
        PrefixAhead(maxHits, window, h, key, rival, n);
        AheadNext(h, key, rival);
      }
    }
  }

  /** The claim for a shorter history. */
  lemma {:induction false} PrefixAhead(maxHits: int, window: real, h: seq<Hit>, key: string, rival: seq<bool>, p: nat)
    requires Obeys(maxHits, window, h) && window >= 0.0 && p < |h|
    requires |rival| == |h| && Feasible(maxHits, window, h, key, rival)
    ensures Count(h[..p], key, rival[..p]) <= Count(h[..p], key, Verdicts(h)[..p])
    decreases |h|, 0
  {
    ObeysPrefix(maxHits, window, h, p);
    FeasiblePrefix(maxHits, window, h, key, rival, p);
    GreedyIsAhead(maxHits, window, h[..p], key, rival[..p]);
    VerdictsPrefix(h, p);
  }

  /** Where the rival does not pick what was refused, it does not catch up. */
  lemma {:induction false} AheadNext(h: seq<Hit>, key: string, rival: seq<bool>)
    requires |rival| == |h| > 0
    requires var n := |h| - 1;
             && !(h[n].key == key && rival[n] && !h[n].ok)
             && Count(h[..n], key, rival[..n]) <= Count(h[..n], key, Verdicts(h)[..n])
    ensures Count(h, key, rival) <= Count(h, key, Verdicts(h))
  {
  }

  lemma {:induction false} VerdictsPrefix(h: seq<Hit>, p: nat)
    requires p <= |h|
    ensures Verdicts(h)[..p] == Verdicts(h[..p])
  {
  }

  /** A request is refused only when its window is full of acceptances. */
  lemma {:induction false} FullAtRejection(maxHits: int, window: real, h: seq<Hit>)
    requires Obeys(maxHits, window, h) && |h| > 0 && !h[|h| - 1].ok
    ensures var e := h[|h| - 1]; Cap(maxHits) <= CountIn(h, e.key, Verdicts(h), e.at - window, e.at)
  {
    var n := |h| - 1;
    var e := h[n];
    RecentIsCount(h[..n], e.key, e.at - window, e.at);
    VerdictsPrefix(h, n);
    assert Answered(maxHits, window, h, n);
    CountInPrefix(h, e.key, Verdicts(h), n, e.at - window, e.at);
  }

  /** A refusal costs nothing: the rival picks no more than the limiter accepts in the full window, nor before it. */
  lemma {:induction false} AheadAtRejection(maxHits: int, window: real, h: seq<Hit>, key: string, rival: seq<bool>)
    requires Obeys(maxHits, window, h) && |h| > 0 && !h[|h| - 1].ok && h[|h| - 1].key == key
    requires |rival| == |h| && Feasible(maxHits, window, h, key, rival)
    requires var p := Before(h, h[|h| - 1].at - window);
             Count(h[..p], key, rival[..p]) <= Count(h[..p], key, Verdicts(h)[..p])
    ensures Count(h, key, rival) <= Count(h, key, Verdicts(h))
  {
    var now, from := h[|h| - 1].at, h[|h| - 1].at - window;
    SplitCount(h, key, Verdicts(h), from, now);
    SplitCount(h, key, rival, from, now);
    FullAtRejection(maxHits, window, h);
    assert CountIn(h, key, rival, from, now) <= Cap(maxHits);
  }

  /**
   The limiter's j-th acceptance is never later than a rival's j-th pick: wherever a
   feasible rival has made its j-th pick, an accepted request at or before it is the
   limiter's j-th.
   */
  lemma {:induction false} JthAcceptanceNotLater(maxHits: int, window: real, h: seq<Hit>, key: string,
                                                 rival: seq<bool>, r: nat)
    returns (g: nat)
    requires Obeys(maxHits, window, h) && window >= 0.0
    requires |rival| == |h| && Feasible(maxHits, window, h, key, rival)
    requires r < |h| && h[r].key == key && rival[r]
    ensures g <= r && h[g].key == key && h[g].ok && h[g].at <= h[r].at
    ensures Count(h[..g + 1], key, Verdicts(h[..g + 1])) == Count(h[..r + 1], key, rival[..r + 1])
  {
    ObeysPrefix(maxHits, window, h, r + 1);
    FeasiblePrefix(maxHits, window, h, key, rival, r + 1);
    GreedyIsAhead(maxHits, window, h[..r + 1], key, rival[..r + 1]);
    var j := Count(h[..r + 1], key, rival[..r + 1]);
    g := NthAcceptance(h[..r + 1], key, j);
    assert h[..r + 1][..g + 1] == h[..g + 1];
  }

  lemma {:induction false} NthAcceptance(h: seq<Hit>, key: string, j: nat) returns (g: nat)
    requires 1 <= j <= Count(h, key, Verdicts(h))
    ensures g < |h| && h[g].key == key && h[g].ok
    ensures Count(h[..g + 1], key, Verdicts(h[..g + 1])) == j
    decreases |h|
  {
    var n := |h| - 1;
    assert Verdicts(h)[..n] == Verdicts(h[..n]);
    if j <= Count(h[..n], key, Verdicts(h[..n])) {
      g := NthAcceptance(h[..n], key, j);
      assert h[..n][..g + 1] == h[..g + 1];
    } else {
      g := n;
      assert h[..n + 1] == h;
    }
  }

  // ---------- keys do not interfere ----------

  /** The requests of one key, in order. */
  ghost function Only(h: seq<Hit>, key: string): seq<Hit> {
    if |h| == 0 then []
    else
      var front := Only(h[..|h| - 1], key);
      if h[|h| - 1].key == key then front + [h[|h| - 1]] else front
  }

  ghost function Times(h: seq<Hit>): (t: seq<real>)
    ensures |t| == |h| && forall i :: 0 <= i < |h| ==> t[i] == h[i].at
  {
    seq(|h|, i requires 0 <= i < |h| => h[i].at)
  }

  lemma {:induction false} AcceptedOfOnly(h: seq<Hit>, key: string)
    ensures Accepted(Only(h, key), key) == Accepted(h, key)
    decreases |h|
  {
    if |h| != 0 {
      var n := |h| - 1;
      AcceptedOfOnly(h[..n], key);
      if h[n].key == key {
        assert Only(h, key)[..|Only(h, key)| - 1] == Only(h[..n], key);
      }
    }
  }

  /**
   The answers a key gets depend on that key's request times alone: two limiters that saw
   the same times for `key`, mixed with any other traffic, answered `key` identically.
   */
  lemma {:induction false} KeysDoNotInterfere(maxHits: int, window: real, h1: seq<Hit>, h2: seq<Hit>, key: string)
    requires Obeys(maxHits, window, h1) && Obeys(maxHits, window, h2)
    requires Times(Only(h1, key)) == Times(Only(h2, key))
    ensures Only(h1, key) == Only(h2, key)
    decreases |h1| + |h2|
  {
    if |h1| != 0 && h1[|h1| - 1].key != key {
      ObeysPrefix(maxHits, window, h1, |h1| - 1);
      KeysDoNotInterfere(maxHits, window, h1[..|h1| - 1], h2, key);
    } else if |h2| != 0 && h2[|h2| - 1].key != key {
      ObeysPrefix(maxHits, window, h2, |h2| - 1);
      KeysDoNotInterfere(maxHits, window, h1, h2[..|h2| - 1], key);
    } else {
      assert |Times(Only(h1, key))| == |Times(Only(h2, key))|;
      if |h1| != 0 && |h2| != 0 {
        var m, n := |h1| - 1, |h2| - 1;
        SameTimesBefore(h1, h2, key);
        ObeysPrefix(maxHits, window, h1, m);
        ObeysPrefix(maxHits, window, h2, n);
        KeysDoNotInterfere(maxHits, window, h1[..m], h2[..n], key);
        SameAnswer(maxHits, window, h1, h2, key);
      }
    }
  }

  lemma {:induction false} SameTimesBefore(h1: seq<Hit>, h2: seq<Hit>, key: string)
    requires |h1| > 0 && |h2| > 0 && h1[|h1| - 1].key == key && h2[|h2| - 1].key == key
    requires Times(Only(h1, key)) == Times(Only(h2, key))
    ensures Times(Only(h1[..|h1| - 1], key)) == Times(Only(h2[..|h2| - 1], key))
    ensures h1[|h1| - 1].at == h2[|h2| - 1].at
  {
    var p1, p2 := Only(h1[..|h1| - 1], key), Only(h2[..|h2| - 1], key);
    assert Times(Only(h1, key)) == Times(p1) + [h1[|h1| - 1].at];
    assert Times(Only(h2, key)) == Times(p2) + [h2[|h2| - 1].at];
    SameFront(Times(p1), Times(p2), h1[|h1| - 1].at, h2[|h2| - 1].at);
  }

  lemma {:induction false} SameFront(a: seq<real>, b: seq<real>, x: real, y: real)
    requires a + [x] == b + [y]
    ensures a == b && x == y
  {
    assert |a| == |a + [x]| - 1 == |b + [y]| - 1 == |b|;
    assert a == (a + [x])[..|a|] && b == (b + [y])[..|b|];
    assert (a + [x])[|a|] == (b + [y])[|b|];
  }

  lemma {:induction false} SameAnswer(maxHits: int, window: real, h1: seq<Hit>, h2: seq<Hit>, key: string)
    requires |h1| > 0 && |h2| > 0 && h1[|h1| - 1].key == key && h2[|h2| - 1].key == key
    requires Answered(maxHits, window, h1, |h1| - 1) && Answered(maxHits, window, h2, |h2| - 1)
    requires h1[|h1| - 1].at == h2[|h2| - 1].at
    requires Only(h1[..|h1| - 1], key) == Only(h2[..|h2| - 1], key)
    ensures h1[|h1| - 1] == h2[|h2| - 1]
  {
    AcceptedOfOnly(h1[..|h1| - 1], key);
    AcceptedOfOnly(h2[..|h2| - 1], key);
  }
}
