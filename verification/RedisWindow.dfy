/**
 The shared fixed-window limiter: a Redis counter per key whose expiry is set by the
 increment that creates it. Rejected requests are counted too.

 The counter is an abstract cell holding its count and its time of birth. Whether it is
 still readable at the very instant `born + window` is left open: `inclusive` chooses, and
 every result holds for both choices.
 */
module RedisWindow {
  import opened Wrappers

  datatype Cell = Cell(count: nat, born: real)

  datatype Verdict = Allowed | TooMany | Unavailable

  /** One answered request: when, on which counter lifetime, as its how-manieth increment. */
  datatype Tick = Tick(key: string, at: real, born: real, nth: nat, ok: bool)

  /** A counter born at `born` is still there at `now`; a non-positive expiry deletes it at once. */
  predicate Live(window: int, inclusive: bool, born: real, now: real) {
    window > 0 && (now < born + window as real || (inclusive && now == born + window as real))
  }

  function Last(h: seq<Tick>, key: string): Option<Tick> {
    if |h| == 0 then None
    else if h[|h| - 1].key == key then Some(h[|h| - 1])
    else Last(h[..|h| - 1], key)
  }

  /** What INCR-then-EXPIRE answers after the history `h`. */
  function Next(maxHits: int, window: int, inclusive: bool, h: seq<Tick>, key: string, now: real): Tick {
    var last := Last(h, key);
    if last.Some? && Live(window, inclusive, last.value.born, now)
    then Tick(key, now, last.value.born, last.value.nth + 1, last.value.nth + 1 <= maxHits)
    else Tick(key, now, now, 1, 1 <= maxHits)
  }

  ghost predicate Ticked(maxHits: int, window: int, inclusive: bool, h: seq<Tick>, i: nat)
    requires i < |h|
  {
    h[i] == Next(maxHits, window, inclusive, h[..i], h[i].key, h[i].at)
  }

  ghost predicate Obeys(maxHits: int, window: int, inclusive: bool, h: seq<Tick>) {
    && (forall i, j :: 0 <= i < j < |h| ==> h[i].at <= h[j].at)
    && (forall i :: 0 <= i < |h| ==> Ticked(maxHits, window, inclusive, h, i))
  }

  /** The stored cell of a key is the lifetime its last request counted on. */
  ghost predicate CellMatches(cells: map<string, Cell>, h: seq<Tick>, key: string) {
    match Last(h, key)
    case None => key !in cells
    case Some(t) => key in cells && cells[key] == Cell(t.nth, t.born)
  }

  ghost predicate CellsMatch(cells: map<string, Cell>, h: seq<Tick>) {
    forall key :: CellMatches(cells, h, key)
  }

  class RedisWindowLimiter {
    const maxHits: int
    const windowSeconds: int
    const inclusive: bool
    var cells: map<string, Cell>
    ghost var history: seq<Tick>

    ghost predicate Valid()
      reads this
    {
      Obeys(maxHits, windowSeconds, inclusive, history) && CellsMatch(cells, history)
    }

    constructor (maxHits: int, windowSeconds: int, inclusive: bool)
      ensures Valid() && history == []
      ensures this.maxHits == maxHits && this.windowSeconds == windowSeconds && this.inclusive == inclusive
    {
      this.maxHits := maxHits;
      this.windowSeconds := windowSeconds;
      this.inclusive := inclusive;
      cells := map[];
      history := [];
    }

    /** One request at time `now`. A store that cannot be reached answers 503 and counts nothing. */
    method Check(key: string, now: real, reachable: bool) returns (verdict: Verdict)
      requires Valid()
      requires |history| > 0 ==> history[|history| - 1].at <= now
      modifies this
      ensures Valid()
      ensures !reachable ==> verdict == Unavailable && history == old(history) && cells == old(cells)
      ensures reachable ==>
        var t := Next(maxHits, windowSeconds, inclusive, old(history), key, now);
        && history == old(history) + [t]
        && cells == old(cells)[key := Cell(t.nth, t.born)]
        && t.key == key && t.at == now && verdict == (if t.ok then Allowed else TooMany)
    {
      if !reachable {
        return Unavailable;
      }
      assert CellMatches(cells, history, key);
      ghost var t := Next(maxHits, windowSeconds, inclusive, history, key, now);
      TickExtends(maxHits, windowSeconds, inclusive, history, t, cells);
      var hits := 1;
      if key in cells && Live(windowSeconds, inclusive, cells[key].born, now) {
        hits := cells[key].count + 1;
        cells := cells[key := cells[key].(count := hits)];
      } else {
        cells := cells[key := Cell(hits, now)];
      }
      assert cells[key] == Cell(t.nth, t.born);
      verdict := if hits > maxHits then TooMany else Allowed;
      history := history + [t];
    }
  }

  function Cap(maxHits: int): nat {
    if maxHits > 0 then maxHits else 0
  }

  lemma {:induction false} ObeysExtended(maxHits: int, window: int, inclusive: bool, h: seq<Tick>, t: Tick)
    requires Obeys(maxHits, window, inclusive, h) && (|h| > 0 ==> h[|h| - 1].at <= t.at)
    requires t == Next(maxHits, window, inclusive, h, t.key, t.at)
    ensures Obeys(maxHits, window, inclusive, h + [t])
  {
    var after := h + [t];
    forall i | 0 <= i < |after| ensures Ticked(maxHits, window, inclusive, after, i) {
      if i < |h| {
        assert after[..i] == h[..i] && Ticked(maxHits, window, inclusive, h, i);
      } else {
        assert after[..i] == h;
      }
    }
  }

  lemma {:induction false} LastAfter(h: seq<Tick>, t: Tick, key: string)
    ensures Last(h + [t], key) == if t.key == key then Some(t) else Last(h, key)
  {
    assert (h + [t])[..|h|] == h;
  }

  lemma {:induction false} TickExtends(maxHits: int, window: int, inclusive: bool, h: seq<Tick>, t: Tick,
                                       cells: map<string, Cell>)
    requires Obeys(maxHits, window, inclusive, h) && (|h| > 0 ==> h[|h| - 1].at <= t.at)
    requires t == Next(maxHits, window, inclusive, h, t.key, t.at)
    requires CellsMatch(cells, h)
    ensures Obeys(maxHits, window, inclusive, h + [t])
    ensures CellsMatch(cells[t.key := Cell(t.nth, t.born)], h + [t])
  {
    ObeysExtended(maxHits, window, inclusive, h, t);
    CellsExtend(h, t, cells);
  }

  lemma {:induction false} CellsExtend(h: seq<Tick>, t: Tick, cells: map<string, Cell>)
    requires CellsMatch(cells, h)
    ensures CellsMatch(cells[t.key := Cell(t.nth, t.born)], h + [t])
  {
    var cells', h' := cells[t.key := Cell(t.nth, t.born)], h + [t];
    forall key ensures CellMatches(cells', h', key) {
      LastAfter(h, t, key);
      assert CellMatches(cells, h, key);
    }
  }

  lemma {:induction false} ObeysPrefix(maxHits: int, window: int, inclusive: bool, h: seq<Tick>, n: nat)
    requires Obeys(maxHits, window, inclusive, h) && n <= |h|
    ensures Obeys(maxHits, window, inclusive, h[..n])
  {
    forall i | 0 <= i < n ensures Ticked(maxHits, window, inclusive, h[..n], i) {
      assert h[..n][..i] == h[..i] && Ticked(maxHits, window, inclusive, h, i);
    }
  }

  /** Where the last request of `key` sits. */
  lemma {:induction false} LastAt(h: seq<Tick>, key: string) returns (m: nat)
    requires Last(h, key).Some?
    ensures m < |h| && h[m] == Last(h, key).value && h[m].key == key
    ensures forall i :: m < i < |h| ==> h[i].key != key
    decreases |h|
  {
    if h[|h| - 1].key == key {
      m := |h| - 1;
    } else {
      m := LastAt(h[..|h| - 1], key);
    }
  }

  lemma {:induction false} LastExists(h: seq<Tick>, key: string, i: nat)
    requires i < |h| && h[i].key == key
    ensures Last(h, key).Some?
    decreases |h|
  {
    if h[|h| - 1].key != key {
      LastExists(h[..|h| - 1], key, i);
    }
  }

  // ---------- one counter lifetime ----------

  /** Requests of `key` counted on the lifetime born at `born`. */
  ghost function OnLifetime(h: seq<Tick>, key: string, born: real): nat {
    if |h| == 0 then 0
    else OnLifetime(h[..|h| - 1], key, born)
         + (if h[|h| - 1].key == key && h[|h| - 1].born == born then 1 else 0)
  }

  /** The accepted ones among them. */
  ghost function AcceptedOnLifetime(h: seq<Tick>, key: string, born: real): nat {
    if |h| == 0 then 0
    else AcceptedOnLifetime(h[..|h| - 1], key, born)
         + (if h[|h| - 1].key == key && h[|h| - 1].born == born && h[|h| - 1].ok then 1 else 0)
  }

  /** Lifetimes of a key never start before an earlier one's, and never in the future. */
  lemma {:induction false} BirthsAscend(maxHits: int, window: int, inclusive: bool, h: seq<Tick>, key: string)
    requires Obeys(maxHits, window, inclusive, h) && window > 0
    ensures forall i :: 0 <= i < |h| ==> h[i].born <= h[i].at
    ensures Last(h, key).Some? ==> forall i :: 0 <= i < |h| && h[i].key == key ==> h[i].born <= Last(h, key).value.born
    ensures Last(h, key).Some? ==> Last(h, key).value.at <= h[|h| - 1].at
    decreases |h|
  {
    if |h| != 0 {
      var n := |h| - 1;
      ObeysPrefix(maxHits, window, inclusive, h, n);
      BirthsAscend(maxHits, window, inclusive, h[..n], key);
      BirthsAscend(maxHits, window, inclusive, h[..n], h[n].key);
      assert Ticked(maxHits, window, inclusive, h, n);
      forall i | 0 <= i < |h| ensures h[i].born <= h[i].at {
        if i < n {
          assert h[..n][i].born <= h[..n][i].at;
        } else if h[n].born != h[n].at {
          var m := LastAt(h[..n], h[n].key);
          assert h[..n][m].born <= h[..n][m].at;
        }
      }
      if h[n].key == key {
        forall i | 0 <= i < |h| && h[i].key == key ensures h[i].born <= h[n].born {
          if i < n { assert h[..n][i].born <= h[..n][i].at; }
        }
      } else if Last(h, key).Some? {
        forall i | 0 <= i < |h| && h[i].key == key ensures h[i].born <= Last(h, key).value.born {
          assert h[..n][i].key == key;
        }
      }
    }
  }

  /**
   The counter counts: the last request of a lifetime carries the number of requests made on
   it, and exactly the first `maxHits` of them were accepted.
   */
  lemma {:induction false} LifetimeCounts(maxHits: int, window: int, inclusive: bool, h: seq<Tick>, key: string,
                                         born: real)
    requires Obeys(maxHits, window, inclusive, h) && window > 0
    ensures var n := OnLifetime(h, key, born);
            AcceptedOnLifetime(h, key, born) == if n <= Cap(maxHits) then n else Cap(maxHits)
    ensures OnLifetime(h, key, born) > 0 ==> Last(h, key).Some? && born <= Last(h, key).value.born
    ensures Last(h, key).Some? && Last(h, key).value.born == born ==> Last(h, key).value.nth == OnLifetime(h, key, born)
    decreases |h|
  {
    if |h| != 0 {
      var n := |h| - 1;
      ObeysPrefix(maxHits, window, inclusive, h, n);
      LifetimeCounts(maxHits, window, inclusive, h[..n], key, born);
      BirthsAscend(maxHits, window, inclusive, h[..n], key);
      assert Ticked(maxHits, window, inclusive, h, n);
    }
  }

  // ---------- a closed interval meets at most two lifetimes ----------

  ghost function AcceptedIn(h: seq<Tick>, key: string, lo: real, hi: real): nat {
    if |h| == 0 then 0
    else AcceptedIn(h[..|h| - 1], key, lo, hi)
         + (if h[|h| - 1].key == key && h[|h| - 1].ok && lo <= h[|h| - 1].at <= hi then 1 else 0)
  }

  /** Two requests of a key either share a lifetime, or the later lifetime starts after the earlier one ended. */
  lemma {:induction false} LifetimesDisjoint(maxHits: int, window: int, inclusive: bool, h: seq<Tick>, i: nat, j: nat)
    requires Obeys(maxHits, window, inclusive, h) && window > 0
    requires i < j < |h| && h[i].key == h[j].key && h[i].born != h[j].born
    ensures h[i].born + window as real <= h[j].born
    ensures inclusive ==> h[i].born + window as real < h[j].born
    ensures h[i].at < h[j].born
    decreases j
  {
    var key := h[j].key;
    assert Ticked(maxHits, window, inclusive, h, j);
    ObeysPrefix(maxHits, window, inclusive, h, j);
    assert h[..j][i] == h[i];
    LastExists(h[..j], key, i);
    var m := LastAt(h[..j], key);
    StaysAlive(maxHits, window, inclusive, h, i);
    StaysAlive(maxHits, window, inclusive, h, m);
    if h[m].born != h[i].born {
      if i == m { assert false; }
      LifetimesDisjoint(maxHits, window, inclusive, h, i, m);
      if h[j].born == h[j].at { BirthsAscend(maxHits, window, inclusive, h, key); }
    }
  }

  /** Every request falls inside the lifetime it counted on. */
  lemma {:induction false} StaysAlive(maxHits: int, window: int, inclusive: bool, h: seq<Tick>, i: nat)
    requires Obeys(maxHits, window, inclusive, h) && window > 0 && i < |h|
    ensures Live(window, inclusive, h[i].born, h[i].at)
  {
    assert Ticked(maxHits, window, inclusive, h, i);
  }

  /** The accepted requests of an interval that counted on the lifetime born at `born`. */
  ghost function AcceptedInOn(h: seq<Tick>, key: string, lo: real, hi: real, born: real): nat {
    if |h| == 0 then 0
    else AcceptedInOn(h[..|h| - 1], key, lo, hi, born)
         + (if h[|h| - 1].key == key && h[|h| - 1].ok && h[|h| - 1].born == born && lo <= h[|h| - 1].at <= hi
            then 1 else 0)
  }

  /** A counter lasts exactly one window: a request counts on the lifetime of an earlier one iff that still runs. */
  lemma {:induction false} LifetimeLastsAWindow(maxHits: int, window: int, inclusive: bool, h: seq<Tick>,
                                                i: nat, j: nat)
    requires Obeys(maxHits, window, inclusive, h) && window > 0
    requires i < j < |h| && h[i].key == h[j].key
    ensures h[j].born == h[i].born
       <==> h[j].at < h[i].born + window as real || (inclusive && h[j].at == h[i].born + window as real)
  {
    StaysAlive(maxHits, window, inclusive, h, j);
    BirthsAscend(maxHits, window, inclusive, h, h[j].key);
    if h[j].born != h[i].born {
      LifetimesDisjoint(maxHits, window, inclusive, h, i, j);
    }
  }

  /** Accepted requests in an interval that only meets the lifetimes `b1` and `b2`. */
  lemma {:induction false} CoveredByTwo(h: seq<Tick>, key: string, lo: real, hi: real, b1: real, b2: real)
    requires forall i :: 0 <= i < |h| && h[i].key == key && lo <= h[i].at <= hi ==> h[i].born == b1 || h[i].born == b2
    ensures AcceptedIn(h, key, lo, hi)
         <= AcceptedInOn(h, key, lo, hi, b1) + if b1 == b2 then 0 else AcceptedInOn(h, key, lo, hi, b2)
    decreases |h|
  {
    if |h| != 0 {
      CoveredByTwo(h[..|h| - 1], key, lo, hi, b1, b2);
    }
  }

  lemma {:induction false} PartOfLifetime(h: seq<Tick>, key: string, lo: real, hi: real, born: real)
    ensures AcceptedInOn(h, key, lo, hi, born) <= AcceptedOnLifetime(h, key, born)
    decreases |h|
  {
    if |h| != 0 {
      PartOfLifetime(h[..|h| - 1], key, lo, hi, born);
    }
  }

  /** An accepted request of the lifetime outside the interval is missing from it. */
  lemma {:induction false} MissesOne(h: seq<Tick>, key: string, lo: real, hi: real, born: real, f: nat)
    requires f < |h| && h[f].key == key && h[f].ok && h[f].born == born && !(lo <= h[f].at <= hi)
    ensures AcceptedInOn(h, key, lo, hi, born) + 1 <= AcceptedOnLifetime(h, key, born)
    decreases |h|
  {
    var n := |h| - 1;
    if f < n {
      MissesOne(h[..n], key, lo, hi, born, f);
    } else {
      PartOfLifetime(h[..n], key, lo, hi, born);
    }
  }

  /** Every lifetime begins with a request made at its birth. */
  lemma {:induction false} FirstOfLifetime(maxHits: int, window: int, inclusive: bool, h: seq<Tick>, i: nat)
    returns (f: nat)
    requires Obeys(maxHits, window, inclusive, h) && i < |h|
    ensures f <= i && h[f].key == h[i].key && h[f].born == h[i].born == h[f].at && (h[f].ok <==> 1 <= maxHits)
    decreases i
  {
    assert Ticked(maxHits, window, inclusive, h, i);
    if h[i].nth == 1 && h[i].at == h[i].born {
      f := i;
    } else {
      var m := LastAt(h[..i], h[i].key);
      f := FirstOfLifetime(maxHits, window, inclusive, h, m);
    }
  }

  ghost predicate Hit(h: seq<Tick>, key: string, lo: real, hi: real, i: nat)
    requires i < |h|
  {
    h[i].key == key && lo <= h[i].at <= hi
  }

  /**
   The most that gets through in a closed interval of one window length: twice the limit if an
   expired counter is gone at its very instant, one less if it can still be read then.
   */
  function Most(maxHits: int, inclusive: bool): nat {
    if maxHits <= 0 then 0 else if inclusive then 2 * maxHits - 1 else 2 * maxHits
  }

  lemma {:induction false} AtMostPerInterval(maxHits: int, window: int, inclusive: bool, h: seq<Tick>, key: string,
                                             lo: real)
    requires Obeys(maxHits, window, inclusive, h) && window > 0
    ensures AcceptedIn(h, key, lo, lo + window as real) <= Most(maxHits, inclusive)
  {
    var hi := lo + window as real;
    var b1, b2, i, j := TwoLifetimes(maxHits, window, inclusive, h, key, lo);
    CoveredByTwo(h, key, lo, hi, b1, b2);
    PartOfLifetime(h, key, lo, hi, b1);
    PartOfLifetime(h, key, lo, hi, b2);
    LifetimeCounts(maxHits, window, inclusive, h, key, b1);
    LifetimeCounts(maxHits, window, inclusive, h, key, b2);
    if inclusive && b1 != b2 && maxHits > 0 {
      FirstIsOutside(maxHits, window, h, lo, i, j);
    }
  }

  /** If a readable expired counter separates two lifetimes, the earlier one began before the interval. */
  lemma {:induction false} FirstIsOutside(maxHits: int, window: int, h: seq<Tick>, lo: real, i: nat, j: nat)
    requires Obeys(maxHits, window, true, h) && window > 0 && maxHits > 0
    requires i < j < |h| && h[i].key == h[j].key && h[i].born != h[j].born
    requires h[j].at <= lo + window as real
    ensures var hi := lo + window as real;
            AcceptedInOn(h, h[i].key, lo, hi, h[i].born) + 1 <= AcceptedOnLifetime(h, h[i].key, h[i].born)
  {
    LifetimesDisjoint(maxHits, window, true, h, i, j);
    BirthsAscend(maxHits, window, true, h, h[j].key);
    var f := FirstOfLifetime(maxHits, window, true, h, i);
    MissesOne(h, h[i].key, lo, lo + window as real, h[i].born, f);
  }

  /** The lifetimes an interval meets, with a request of each if there are two. */
  lemma {:induction false} TwoLifetimes(maxHits: int, window: int, inclusive: bool, h: seq<Tick>, key: string,
                                        lo: real)
    returns (b1: real, b2: real, i: nat, j: nat)
    requires Obeys(maxHits, window, inclusive, h) && window > 0
    ensures forall k :: 0 <= k < |h| && Hit(h, key, lo, lo + window as real, k) ==> h[k].born == b1 || h[k].born == b2
    ensures b1 != b2 ==>
              && i < j < |h| && h[i].born == b1 && h[j].born == b2
              && Hit(h, key, lo, lo + window as real, i) && Hit(h, key, lo, lo + window as real, j)
  {
    var hi := lo + window as real;
    i, j := 0, 0;
    var first := FirstHit(h, key, lo, hi, None, 0);
    b1 := if first.Some? then h[first.value].born else 0.0;
    var second := FirstHit(h, key, lo, hi, Some(b1), 0);
    b2 := if second.Some? then h[second.value].born else b1;
    if first.Some? && second.Some? {
      i, j := first.value, second.value;
      forall k | 0 <= k < |h| && Hit(h, key, lo, hi, k) ensures h[k].born == b1 || h[k].born == b2 {
        if k > j {
          NoThirdLifetime(maxHits, window, inclusive, h, i, j, k);
        }
      }
    }
  }

  /** Requests no further apart than a window meet at most two lifetimes. */
  lemma {:induction false} NoThirdLifetime(maxHits: int, window: int, inclusive: bool, h: seq<Tick>,
                                           i: nat, j: nat, k: nat)
    requires Obeys(maxHits, window, inclusive, h) && window > 0 && i < j < k < |h|
    requires h[i].key == h[j].key == h[k].key && h[i].born != h[j].born
    requires h[k].at <= h[i].at + window as real
    ensures h[k].born == h[j].born
  {
    if h[k].born != h[j].born {
      BirthsAscend(maxHits, window, inclusive, h, h[j].key);
      LifetimesDisjoint(maxHits, window, inclusive, h, i, j);
      LifetimesDisjoint(maxHits, window, inclusive, h, j, k);
    }
  }

  /** The first request of the interval, from `n` on, whose lifetime is not the excluded one. */
  lemma {:induction false} FirstHit(h: seq<Tick>, key: string, lo: real, hi: real, excluded: Option<real>, n: nat)
    returns (r: Option<nat>)
    requires n <= |h|
    ensures r.Some? ==> n <= r.value < |h| && Hit(h, key, lo, hi, r.value) && Some(h[r.value].born) != excluded
    ensures forall i :: n <= i < (if r.Some? then r.value else |h|) && Hit(h, key, lo, hi, i) ==>
              Some(h[i].born) == excluded
    decreases |h| - n
  {
    if n == |h| {
      r := None;
    } else if Hit(h, key, lo, hi, n) && Some(h[n].born) != excluded {
      r := Some(n);
    } else {
      r := FirstHit(h, key, lo, hi, excluded, n + 1);
    }
  }

  // ---------- the bound is reached ----------

  /** `n` requests at time `at` after the history `h`, counted on the lifetime born at `born` from `nth` on. */
  ghost function Burst(h: seq<Tick>, key: string, at: real, born: real, nth: nat, n: nat): seq<Tick> {
    if n == 0 then h else Burst(h, key, at, born, nth, n - 1) + [Tick(key, at, born, nth + n - 1, true)]
  }

  /** The next request of `key` at time `at` counts as number `nth` on the lifetime born at `born`. */
  ghost predicate Continues(window: int, inclusive: bool, h: seq<Tick>, key: string, at: real, born: real, nth: nat) {
    var last := Last(h, key);
    if last.Some? && Live(window, inclusive, last.value.born, at)
    then born == last.value.born && nth == last.value.nth + 1
    else born == at && nth == 1
  }

  lemma {:induction false} BurstObeys(maxHits: int, window: int, inclusive: bool, h: seq<Tick>, key: string,
                                      at: real, born: real, nth: nat, n: nat)
    requires Obeys(maxHits, window, inclusive, h) && window > 0 && nth + n <= maxHits + 1
    requires (|h| > 0 ==> h[|h| - 1].at <= at) && Live(window, inclusive, born, at)
    requires Continues(window, inclusive, h, key, at, born, nth)
    ensures var b := Burst(h, key, at, born, nth, n);
            && Obeys(maxHits, window, inclusive, b)
            && (n > 0 ==> |b| > 0 && b[|b| - 1] == Tick(key, at, born, nth + n - 1, true))
  {
    if n > 0 {
      BurstObeys(maxHits, window, inclusive, h, key, at, born, nth, n - 1);
      var b := Burst(h, key, at, born, nth, n - 1);
      if n > 1 {
        SameLifetimeNext(maxHits, window, inclusive, b, key, at, born, nth + n - 2);
      }
      ObeysExtended(maxHits, window, inclusive, b, Tick(key, at, born, nth + n - 1, true));
    }
  }

  lemma {:induction false} SameLifetimeNext(maxHits: int, window: int, inclusive: bool, h: seq<Tick>, key: string,
                                            at: real, born: real, nth: nat)
    requires |h| > 0 && h[|h| - 1] == Tick(key, at, born, nth, true) && Live(window, inclusive, born, at)
    requires nth + 1 <= maxHits
    ensures Next(maxHits, window, inclusive, h, key, at) == Tick(key, at, born, nth + 1, true)
  {
  }

  lemma {:induction false} BurstCounts(h: seq<Tick>, key: string, at: real, born: real, nth: nat, n: nat, lo: real,
                                       hi: real)
    ensures AcceptedIn(Burst(h, key, at, born, nth, n), key, lo, hi)
         == AcceptedIn(h, key, lo, hi) + (if lo <= at <= hi then n else 0)
  {
    if n > 0 {
      BurstCounts(h, key, at, born, nth, n - 1, lo, hi);
      var b := Burst(h, key, at, born, nth, n);
      assert b[..|b| - 1] == Burst(h, key, at, born, nth, n - 1);
    }
  }

  /** An expiry that is gone at its instant: the limit at the birth, and the limit again one window later. */
  lemma {:induction false} TwiceIsReached(maxHits: int, window: int, key: string) returns (h: seq<Tick>)
    requires maxHits > 0 && window > 0
    ensures Obeys(maxHits, window, false, h)
    ensures AcceptedIn(h, key, 0.0, window as real) == 2 * maxHits
  {
    var w := window as real;
    BurstObeys(maxHits, window, false, [], key, 0.0, 0.0, 1, maxHits);
    BurstCounts([], key, 0.0, 0.0, 1, maxHits, 0.0, w);
    var first := Burst([], key, 0.0, 0.0, 1, maxHits);
    BurstObeys(maxHits, window, false, first, key, w, w, 1, maxHits);
    BurstCounts(first, key, w, w, 1, maxHits, 0.0, w);
    h := Burst(first, key, w, w, 1, maxHits);
  }

  /**
   An expiry that can still be read at its instant: one request at the birth, the rest of the
   limit one window later, and the limit again right after.
   */
  lemma {:induction false} OneLessIsReached(maxHits: int, window: int, key: string) returns (h: seq<Tick>)
    requires maxHits > 0 && window > 0
    ensures Obeys(maxHits, window, true, h)
    ensures AcceptedIn(h, key, 1.0, 1.0 + window as real) == 2 * maxHits - 1
  {
    var w := window as real;
    var first := RestAtTheEnd(maxHits, window, key);
    BurstObeys(maxHits, window, true, first, key, 1.0 + w, 1.0 + w, 1, maxHits);
    BurstCounts(first, key, 1.0 + w, 1.0 + w, 1, maxHits, 1.0, 1.0 + w);
    h := Burst(first, key, 1.0 + w, 1.0 + w, 1, maxHits);
  }

  lemma {:induction false} RestAtTheEnd(maxHits: int, window: int, key: string) returns (h: seq<Tick>)
    requires maxHits > 0 && window > 0
    ensures Obeys(maxHits, window, true, h) && |h| > 0 && h[|h| - 1].at <= window as real
    ensures Last(h, key).Some? && Last(h, key).value.born == 0.0
    ensures AcceptedIn(h, key, 1.0, 1.0 + window as real) == maxHits - 1
  {
    var w := window as real;
    var one := FirstTick(maxHits, window, true, key);
    BurstObeys(maxHits, window, true, one, key, w, 0.0, 2, maxHits - 1);
    BurstCounts(one, key, w, 0.0, 2, maxHits - 1, 1.0, 1.0 + w);
    h := Burst(one, key, w, 0.0, 2, maxHits - 1);
  }

  lemma {:induction false} FirstTick(maxHits: int, window: int, inclusive: bool, key: string) returns (h: seq<Tick>)
    requires maxHits > 0 && window > 0
    ensures h == [Tick(key, 0.0, 0.0, 1, true)] && Obeys(maxHits, window, inclusive, h)
    ensures Last(h, key) == Some(h[0]) && AcceptedIn(h, key, 1.0, 1.0 + window as real) == 0
  {
    var t := Tick(key, 0.0, 0.0, 1, true);
    h := [t];
    assert h[..0] == [];
    assert Ticked(maxHits, window, inclusive, h, 0);
  }

  /** So the bound is exact, for every limit and window and for both readings of the expiry. */
  lemma {:induction false} MostIsReached(maxHits: int, window: int, inclusive: bool, key: string)
    returns (h: seq<Tick>, lo: real)
    requires window > 0
    ensures Obeys(maxHits, window, inclusive, h)
    ensures AcceptedIn(h, key, lo, lo + window as real) == Most(maxHits, inclusive)
  {
    if maxHits <= 0 {
      h, lo := [], 0.0;
    } else if inclusive {
      h := OneLessIsReached(maxHits, window, key);
      lo := 1.0;
    } else {
      h := TwiceIsReached(maxHits, window, key);
      lo := 0.0;
    }
  }
}
