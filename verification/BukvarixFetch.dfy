/**
 The fetch loop of a keyword run: query the seeds in order, keep the first occurrence of
 every normalised phrase, stop at the row cap or at the first failure.
 What each query returned, with its phrases normalised, is an input.
 */
module BukvarixFetch {

  const MAX_RESULTS_PER_RUN: nat := 1000
  const MAX_ROWS_PER_QUERY: nat := 100
  const MAX_SEED_QUERIES: nat := 10

  type Metrics = seq<int>

  /** A frozen seed; `BadSeed` is one whose phrase or source id does not parse. */
  datatype Seed = BadSeed | Seed(phrase: string, source: nat)

  /** What the provider did with one query. */
  datatype Reply = Refused(code: string) | Broke | Fetched(items: seq<Item>)

  /** A phrase as returned and in its normalised form. */
  datatype Item = Item(phrase: string, normalized: string, metrics: Metrics)

  datatype ResultRow = ResultRow(phrase: string, normalized: string, metrics: Metrics, source: nat)

  datatype Outcome = Rows(rows: seq<ResultRow>, queries: nat) | Failure(code: string, queries: nat)

  function RowOf(source: nat, item: Item): ResultRow {
    ResultRow(item.phrase, item.normalized, item.metrics, source)
  }

  function CandidatesOf(source: nat, items: seq<Item>): seq<ResultRow> {
    seq(|items|, j requires 0 <= j < |items| => RowOf(source, items[j]))
  }

  /** All rows the first `k` queries returned, in order. */
  function Candidates(seeds: seq<Seed>, replies: seq<Reply>, k: nat): seq<ResultRow>
    requires k <= |seeds| == |replies|
  {
    if k == 0 then []
    else
      Candidates(seeds, replies, k - 1) + RowsOfQuery(seeds, replies, k - 1)
  }

  /** The rows query `k` returned. */
  function RowsOfQuery(seeds: seq<Seed>, replies: seq<Reply>, k: nat): seq<ResultRow>
    requires k < |seeds| == |replies|
  {
    if Good(seeds, replies, k) then CandidatesOf(seeds[k].source, replies[k].items) else []
  }

  predicate Good(seeds: seq<Seed>, replies: seq<Reply>, k: nat)
    requires k < |seeds| == |replies|
  {
    seeds[k].Seed? && replies[k].Fetched?
  }

  function Phrases(rows: seq<ResultRow>): set<string> {
    set i | 0 <= i < |rows| :: rows[i].normalized
  }

  /** The rows kept after the first `j` of the rows found, starting from `rows`: new non-empty phrases only. */
  function Keep(rows: seq<ResultRow>, found: seq<ResultRow>, j: nat): (kept: seq<ResultRow>)
    requires j <= |found|
    ensures |kept| <= |rows| + j
  {
    if j == 0 then rows
    else
      Kept(Keep(rows, found, j - 1), found[j - 1])
  }

  function Kept(rows: seq<ResultRow>, r: ResultRow): seq<ResultRow> {
    if r.normalized == "" || r.normalized in Phrases(rows) then rows else rows + [r]
  }

  /** The first occurrence of every non-empty normalised phrase, in order. */
  function FirstOccurrences(rows: seq<ResultRow>): seq<ResultRow> {
    Keep([], rows, |rows|)
  }

  function Take(rows: seq<ResultRow>, n: nat): seq<ResultRow> {
    if n <= |rows| then rows[..n] else rows
  }

  /** The distinct rows after `k` queries. */
  function Distinct(seeds: seq<Seed>, replies: seq<Reply>, k: nat): seq<ResultRow>
    requires k <= |seeds| == |replies|
  {
    FirstOccurrences(Candidates(seeds, replies, k))
  }

  /** The loop goes on to query `k`: all before it were good and left room below the cap. */
  ghost predicate Continues(seeds: seq<Seed>, replies: seq<Reply>, k: nat)
    requires k <= |seeds| == |replies|
  {
    && (forall i :: 0 <= i < k ==> Good(seeds, replies, i))
    && |Distinct(seeds, replies, k)| < MAX_RESULTS_PER_RUN
  }

  /** What the loop answers. */
  ghost predicate Answers(seeds: seq<Seed>, replies: seq<Reply>, out: Outcome)
    requires |seeds| == |replies|
  {
    match out
    case Rows(rows, q) =>
      && q <= |seeds|
      && (q > 0 ==> Continues(seeds, replies, q - 1) && Good(seeds, replies, q - 1))
      && rows == Take(Distinct(seeds, replies, q), MAX_RESULTS_PER_RUN)
      && (q == |seeds| || |rows| == MAX_RESULTS_PER_RUN)
    case Failure(code, q) =>
      || (q < |seeds| && Continues(seeds, replies, q)
          && seeds[q].BadSeed? && code == "invalid_snapshot")
      || (0 < q <= |seeds| && Continues(seeds, replies, q - 1) && seeds[q - 1].Seed?
          && ((replies[q - 1].Refused? && code == replies[q - 1].code)
              || (replies[q - 1].Broke? && code == "provider_execution_failed")))
  }

  /** The loop has come to query `k`. */
  ghost predicate Reached(seeds: seq<Seed>, replies: seq<Reply>, k: nat)
    requires k <= |seeds| == |replies|
  {
    && Continues(seeds, replies, k)
    && (k > 0 ==> Continues(seeds, replies, k - 1) && Good(seeds, replies, k - 1))
  }

  method FetchLoop(seeds: seq<Seed>, replies: seq<Reply>) returns (out: Outcome)
    requires |seeds| == |replies|
    ensures Answers(seeds, replies, out)
  {
    var queriesAttempted := 0;
    var seen: set<string> := {};
    var rows: seq<ResultRow> := [];
    for k := 0 to |seeds|
      invariant queriesAttempted == k && Reached(seeds, replies, k)
      invariant rows == Distinct(seeds, replies, k) && seen == Phrases(rows)
    {
      StopsHere(seeds, replies, k);
      if seeds[k].BadSeed? {
        return Failure("invalid_snapshot", queriesAttempted);
      }
      queriesAttempted := queriesAttempted + 1;
      match replies[k] {
        case Refused(code) => return Failure(code, queriesAttempted);
        case Broke => return Failure("provider_execution_failed", queriesAttempted);
        case Fetched(items) =>
          ghost var before := Candidates(seeds, replies, k);
          rows, seen := KeepNew(seeds[k].source, items, rows, seen, before);
          QueryAnswered(seeds, replies, k, rows);
          if |rows| >= MAX_RESULTS_PER_RUN {
            return Rows(rows, queriesAttempted);
          }
      }
    }
    AllAnswered(seeds, replies, rows);
    out := Rows(rows, queriesAttempted);
  }

  /** A bad seed or a failed query ends the loop with its code. */
  lemma {:induction false} StopsHere(seeds: seq<Seed>, replies: seq<Reply>, k: nat)
    requires k < |seeds| == |replies| && Reached(seeds, replies, k)
    ensures seeds[k].BadSeed? ==> Answers(seeds, replies, Failure("invalid_snapshot", k))
    ensures seeds[k].Seed? && replies[k].Refused? ==> Answers(seeds, replies, Failure(replies[k].code, k + 1))
    ensures seeds[k].Seed? && replies[k].Broke? ==>
              Answers(seeds, replies, Failure("provider_execution_failed", k + 1))
  {
  }

  lemma {:induction false} AllAnswered(seeds: seq<Seed>, replies: seq<Reply>, rows: seq<ResultRow>)
    requires |seeds| == |replies| && Reached(seeds, replies, |seeds|)
    requires rows == Distinct(seeds, replies, |seeds|)
    ensures Answers(seeds, replies, Rows(rows, |seeds|))
  {
  }

  /** After one more good query the loop either has its answer or goes on. */
  lemma {:induction false} QueryAnswered(seeds: seq<Seed>, replies: seq<Reply>, k: nat,
                                         rows: seq<ResultRow>)
    requires k < |seeds| == |replies| && Reached(seeds, replies, k) && Good(seeds, replies, k)
    requires rows == Take(Distinct(seeds, replies, k + 1), MAX_RESULTS_PER_RUN)
    ensures if |rows| >= MAX_RESULTS_PER_RUN then Answers(seeds, replies, Rows(rows, k + 1))
            else rows == Distinct(seeds, replies, k + 1) && Reached(seeds, replies, k + 1)
  {
  }

  /** The inner loop: the rows of one query, skipping seen phrases and stopping at the cap. */
  method KeepNew(source: nat, items: seq<Item>,
                 rows: seq<ResultRow>, seen: set<string>, ghost before: seq<ResultRow>)
    returns (rows': seq<ResultRow>, seen': set<string>)
    requires rows == FirstOccurrences(before) && seen == Phrases(rows) && |rows| < MAX_RESULTS_PER_RUN
    ensures rows' == Take(FirstOccurrences(before + CandidatesOf(source, items)), MAX_RESULTS_PER_RUN)
    ensures seen' == Phrases(rows')
  {
    ghost var found := CandidatesOf(source, items);
    rows', seen' := rows, seen;
    for j := 0 to |items|
      invariant |rows'| < MAX_RESULTS_PER_RUN
      invariant rows' == Keep(rows, found, j) && seen' == Phrases(rows')
    {
      rows', seen' := KeepOne(source, items[j], rows', seen');
      KeepNext(rows, found, j);
      if |rows'| >= MAX_RESULTS_PER_RUN {
        CapReached(before, found, j + 1);
        return;
      }
    }
    KeepAfter(before, found);
  }

  /** One item: its row is kept if its phrase is not empty and has not been seen. */
  method KeepOne(source: nat, item: Item, rows: seq<ResultRow>, seen: set<string>)
    returns (rows': seq<ResultRow>, seen': set<string>)
    requires seen == Phrases(rows)
    ensures rows' == Kept(rows, ResultRow(item.phrase, item.normalized, item.metrics, source))
    ensures seen' == Phrases(rows')
  {
    rows', seen' := rows, seen;
    if item.normalized != "" && item.normalized !in seen {
      var row := ResultRow(item.phrase, item.normalized, item.metrics, source);
      PhrasesAppend(rows, row);
      seen' := seen + {item.normalized};
      rows' := rows + [row];
    }
  }

  lemma {:induction false} KeepNext(rows: seq<ResultRow>, found: seq<ResultRow>, j: nat)
    requires j < |found|
    ensures Keep(rows, found, j + 1) == Kept(Keep(rows, found, j), found[j])
  {
  }

  lemma {:induction false} KeepPrefix(a: seq<ResultRow>, b: seq<ResultRow>, j: nat)
    requires j <= |a|
    ensures Keep([], a + b, j) == Keep([], a, j)
  {
    if j > 0 {
      KeepPrefix(a, b, j - 1);
      assert (a + b)[j - 1] == a[j - 1];
    }
  }

  lemma {:induction false} KeepOnward(a: seq<ResultRow>, b: seq<ResultRow>, j: nat)
    requires j <= |b|
    ensures Keep([], a + b, |a| + j) == Keep(FirstOccurrences(a), b, j)
  {
    if j == 0 {
      KeepPrefix(a, b, |a|);
    } else {
      KeepOnward(a, b, j - 1);
      assert (a + b)[|a| + j - 1] == b[j - 1];
    }
  }

  /** The first occurrences of a concatenation: those of the front, then what is new in the rest. */
  lemma {:induction false} KeepAfter(a: seq<ResultRow>, b: seq<ResultRow>)
    ensures FirstOccurrences(a + b) == Keep(FirstOccurrences(a), b, |b|)
  {
    KeepOnward(a, b, |b|);
  }

  /** More candidates only add rows at the end. */
  lemma {:induction false} KeepGrows(rows: seq<ResultRow>, found: seq<ResultRow>, i: nat, j: nat)
    requires i <= j <= |found|
    ensures Keep(rows, found, i) <= Keep(rows, found, j)
    decreases j
  {
    if i < j {
      KeepGrows(rows, found, i, j - 1);
    }
  }

  /** Once the cap is reached, later candidates do not change the first rows. */
  lemma {:induction false} CapReached(before: seq<ResultRow>, found: seq<ResultRow>, j: nat)
    requires j <= |found| && |Keep(FirstOccurrences(before), found, j)| == MAX_RESULTS_PER_RUN
    ensures Take(FirstOccurrences(before + found), MAX_RESULTS_PER_RUN) == Keep(FirstOccurrences(before), found, j)
  {
    KeepAfter(before, found);
    KeepGrows(FirstOccurrences(before), found, j, |found|);
  }

  lemma {:induction false} PhrasesAppend(rows: seq<ResultRow>, r: ResultRow)
    ensures Phrases(rows + [r]) == Phrases(rows) + {r.normalized}
  {
    var after := rows + [r];
    assert after[|rows|] == r;
    forall p | p in Phrases(rows) ensures p in Phrases(after) {
      var i :| 0 <= i < |rows| && rows[i].normalized == p;
      assert after[i] == rows[i];
    }
  }

  // ---------- what first occurrences are ----------

  /**
   The kept rows are candidates at increasing positions, each the earliest with its phrase,
   and no non-empty phrase is missing.
   */
  lemma {:induction false} KeptAreEarliest(rows: seq<ResultRow>) returns (at: seq<nat>)
    ensures Earliest(rows, |rows|, FirstOccurrences(rows), at)
    ensures AllPhrases(rows, |rows|, FirstOccurrences(rows))
  {
    at := KeptUpTo(rows, |rows|);
  }

  lemma {:induction false} KeptUpTo(rows: seq<ResultRow>, n: nat) returns (at: seq<nat>)
    requires n <= |rows|
    ensures Earliest(rows, n, Keep([], rows, n), at) && AllPhrases(rows, n, Keep([], rows, n))
    decreases n
  {
    at := [];
    if n > 0 {
      var before := KeptUpTo(rows, n - 1);
      at := KeptNext(rows, n - 1, Keep([], rows, n - 1), before);
    }
  }

  lemma {:induction false} KeptNext(rows: seq<ResultRow>, n: nat, kept: seq<ResultRow>, at: seq<nat>)
    returns (at': seq<nat>)
    requires n < |rows| && Earliest(rows, n, kept, at) && AllPhrases(rows, n, kept)
    ensures Earliest(rows, n + 1, Kept(kept, rows[n]), at') && AllPhrases(rows, n + 1, Kept(kept, rows[n]))
  {
    at' := at;
    if rows[n].normalized != "" && rows[n].normalized !in Phrases(kept) {
      EarliestAppend(rows, n, kept, at);
      at' := at + [n];
      PhrasesAppend(kept, rows[n]);
    }
  }

  /** Every non-empty phrase among the first `n` rows is kept. */
  ghost predicate AllPhrases(rows: seq<ResultRow>, n: nat, kept: seq<ResultRow>)
    requires n <= |rows|
  {
    forall j :: 0 <= j < n && rows[j].normalized != "" ==> rows[j].normalized in Phrases(kept)
  }

  /** `kept` are the rows at the increasing positions `at` below `n`, each with a new, non-empty phrase. */
  ghost predicate Earliest(rows: seq<ResultRow>, n: nat, kept: seq<ResultRow>, at: seq<nat>) {
    && |at| == |kept|
    && (forall i :: 0 <= i < |at| ==> at[i] < n && EarliestAt(rows, kept[i], at[i]))
    && (forall i, j :: 0 <= i < j < |at| ==> at[i] < at[j])
  }

  ghost predicate EarliestAt(rows: seq<ResultRow>, r: ResultRow, n: nat) {
    && n < |rows| && rows[n] == r && r.normalized != ""
    && forall j :: 0 <= j < n ==> rows[j].normalized != r.normalized
  }

  lemma {:induction false} EarliestAppend(rows: seq<ResultRow>, n: nat, kept: seq<ResultRow>, at: seq<nat>)
    requires n < |rows| && Earliest(rows, n, kept, at) && AllPhrases(rows, n, kept)
    requires rows[n].normalized != "" && rows[n].normalized !in Phrases(kept)
    ensures Earliest(rows, n + 1, kept + [rows[n]], at + [n])
  {
    assert EarliestAt(rows, rows[n], n);
  }

  // ---------- what the contract means ----------

  /** The cap was reached within `k` queries, with these rows. */
  ghost predicate Full(seeds: seq<Seed>, replies: seq<Reply>, k: nat, rows: seq<ResultRow>)
    requires k <= |seeds| == |replies|
  {
    |rows| == MAX_RESULTS_PER_RUN && rows <= Distinct(seeds, replies, k)
  }

  lemma {:induction false} MoreIsKept(rows: seq<ResultRow>, found: seq<ResultRow>)
    ensures FirstOccurrences(rows) <= FirstOccurrences(rows + found)
  {
    KeepAfter(rows, found);
    KeepGrows(FirstOccurrences(rows), found, 0, |found|);
  }

  lemma {:induction false} FullNext(seeds: seq<Seed>, replies: seq<Reply>, k: nat, rows: seq<ResultRow>)
    requires k < |seeds| == |replies| && Full(seeds, replies, k, rows)
    ensures Full(seeds, replies, k + 1, rows)
  {
    MoreIsKept(Candidates(seeds, replies, k), RowsOfQuery(seeds, replies, k));
  }

  /** A full list stays as it is through all further queries. */
  lemma {:induction false} FullStays(seeds: seq<Seed>, replies: seq<Reply>, k: nat, n: nat, rows: seq<ResultRow>)
    requires k <= n <= |seeds| == |replies| && Full(seeds, replies, k, rows)
    ensures Full(seeds, replies, n, rows)
    decreases n
  {
    if k < n {
      FullStays(seeds, replies, k, n - 1, rows);
      FullNext(seeds, replies, n - 1, rows);
    }
  }

  lemma {:induction false} CapStays(seeds: seq<Seed>, replies: seq<Reply>, k: nat, n: nat)
    requires k <= n <= |seeds| == |replies| && |Distinct(seeds, replies, k)| >= MAX_RESULTS_PER_RUN
    ensures |Distinct(seeds, replies, n)| >= MAX_RESULTS_PER_RUN
    ensures Take(Distinct(seeds, replies, n), MAX_RESULTS_PER_RUN)
         == Take(Distinct(seeds, replies, k), MAX_RESULTS_PER_RUN)
  {
    FullStays(seeds, replies, k, n, Distinct(seeds, replies, k)[..MAX_RESULTS_PER_RUN]);
  }

  /** Where one answer stopped, no other can have gone on. */
  lemma {:induction false} StopsThere(seeds: seq<Seed>, replies: seq<Reply>, a: Outcome, k: nat)
    requires |seeds| == |replies| && Answers(seeds, replies, a) && a.queries <= k <= |seeds|
    ensures Continues(seeds, replies, k) ==>
              k == a.queries && if a.Rows? then k == |seeds| else a.queries < |seeds| && seeds[k].BadSeed?
  {
    match a
    case Rows(rows, q) =>
      if |Distinct(seeds, replies, q)| >= MAX_RESULTS_PER_RUN {
        CapStays(seeds, replies, q, k);
      }
    case Failure(code, q) => FailureStops(seeds, replies, code, q, k);
  }

  lemma {:induction false} FailureStops(seeds: seq<Seed>, replies: seq<Reply>,
                                        code: string, q: nat, k: nat)
    requires |seeds| == |replies| && Answers(seeds, replies, Failure(code, q)) && q <= k <= |seeds|
    ensures Continues(seeds, replies, k) ==> k == q && q < |seeds| && seeds[k].BadSeed?
  {
    assert q < |seeds| && seeds[q].BadSeed? ==> !Good(seeds, replies, q);
    assert 0 < q && !replies[q - 1].Fetched? ==> !Good(seeds, replies, q - 1);
  }

  /** The contract leaves exactly one answer. */
  lemma {:induction false} AnswerUnique(seeds: seq<Seed>, replies: seq<Reply>, a: Outcome, b: Outcome)
    requires |seeds| == |replies|
    requires Answers(seeds, replies, a) && Answers(seeds, replies, b)
    ensures a == b
  {
    NotLater(seeds, replies, a, b);
    NotLater(seeds, replies, b, a);
  }

  /** No loop that comes to query `q` goes past it. */
  ghost predicate EndsAt(seeds: seq<Seed>, replies: seq<Reply>, q: nat)
    requires |seeds| == |replies|
  {
    forall k :: q <= k <= |seeds| && Continues(seeds, replies, k) ==>
      k == q && (q < |seeds| ==> seeds[q].BadSeed?)
  }

  /** The loop goes past the query before `q`. */
  ghost predicate GoesTo(seeds: seq<Seed>, replies: seq<Reply>, q: nat)
    requires |seeds| == |replies|
  {
    q > 0 ==> q <= |seeds| && (Continues(seeds, replies, q)
                               || (Continues(seeds, replies, q - 1) && seeds[q - 1].Seed?))
  }

  lemma {:induction false} AnswerEnds(seeds: seq<Seed>, replies: seq<Reply>, a: Outcome)
    requires |seeds| == |replies| && Answers(seeds, replies, a)
    ensures EndsAt(seeds, replies, a.queries)
  {
    forall k | a.queries <= k <= |seeds| && Continues(seeds, replies, k)
      ensures k == a.queries && (k < |seeds| ==> seeds[k].BadSeed?)
    {
      StopsThere(seeds, replies, a, k);
    }
  }

  lemma {:induction false} AnswerGoesTo(seeds: seq<Seed>, replies: seq<Reply>, a: Outcome)
    requires |seeds| == |replies| && Answers(seeds, replies, a)
    ensures GoesTo(seeds, replies, a.queries)
  {
  }

  lemma {:induction false} NotPast(seeds: seq<Seed>, replies: seq<Reply>, p: nat, q: nat)
    requires |seeds| == |replies| && EndsAt(seeds, replies, p) && GoesTo(seeds, replies, q)
    ensures q <= p
  {
  }

  lemma {:induction false} NotLater(seeds: seq<Seed>, replies: seq<Reply>, a: Outcome, b: Outcome)
    requires |seeds| == |replies|
    requires Answers(seeds, replies, a) && Answers(seeds, replies, b)
    ensures b.queries <= a.queries
  {
    AnswerEnds(seeds, replies, a);
    AnswerGoesTo(seeds, replies, b);
    NotPast(seeds, replies, a.queries, b.queries);
  }

  /** If no seed is bad and no query fails, the rows are the first 1000 distinct candidates of the whole run. */
  lemma {:induction false} FetchedIsFirstThousand(seeds: seq<Seed>, replies: seq<Reply>, out: Outcome)
    requires |seeds| == |replies| && Answers(seeds, replies, out)
    requires forall k :: 0 <= k < |seeds| ==> Good(seeds, replies, k)
    ensures out.Rows?
    ensures out.rows == Take(Distinct(seeds, replies, |seeds|), MAX_RESULTS_PER_RUN)
  {
    assert out.queries < |seeds| ==> Good(seeds, replies, out.queries);
    assert 0 < out.queries <= |seeds| ==> Good(seeds, replies, out.queries - 1);
    if out.Rows? && |Distinct(seeds, replies, out.queries)| >= MAX_RESULTS_PER_RUN {
      CapStays(seeds, replies, out.queries, |seeds|);
    }
  }

  /** Where candidate `n` comes from. */
  lemma {:induction false} CandidateFrom(seeds: seq<Seed>, replies: seq<Reply>, q: nat, n: nat)
    returns (k: nat, j: nat)
    requires q <= |seeds| == |replies| && n < |Candidates(seeds, replies, q)|
    ensures k < q && Good(seeds, replies, k) && j < |replies[k].items|
    ensures IsRowOf(Candidates(seeds, replies, q)[n], seeds[k], replies[k].items[j])
    decreases q
  {
    var before := Candidates(seeds, replies, q - 1);
    if n < |before| {
      k, j := CandidateFrom(seeds, replies, q - 1, n);
    } else {
      k, j := q - 1, n - |before|;
    }
  }

  /** The row holds what the provider said about the phrase, and which seed it was asked for. */
  predicate IsRowOf(row: ResultRow, seed: Seed, item: Item) {
    && seed.Seed? && row.source == seed.source
    && row.phrase == item.phrase && row.normalized == item.normalized && row.metrics == item.metrics
  }

  lemma {:induction false} CandidateAt(seeds: seq<Seed>, replies: seq<Reply>, q: nat, k: nat, j: nat) returns (n: nat)
    requires k < q <= |seeds| == |replies| && Good(seeds, replies, k) && j < |replies[k].items|
    ensures n < |Candidates(seeds, replies, q)|
    ensures Candidates(seeds, replies, q)[n].normalized == replies[k].items[j].normalized
    decreases q
  {
    if k < q - 1 {
      n := CandidateAt(seeds, replies, q - 1, k, j);
    } else {
      n := |Candidates(seeds, replies, q - 1)| + j;
    }
  }

  /** Every row of an answer is what some query before its end returned, with a phrase no other row has. */
  lemma {:induction false} RowsAreReturned(seeds: seq<Seed>, replies: seq<Reply>, out: Outcome, i: nat)
    returns (k: nat, j: nat)
    requires |seeds| == |replies| && Answers(seeds, replies, out) && out.Rows? && i < |out.rows|
    ensures k < out.queries && replies[k].Fetched? && j < |replies[k].items|
    ensures IsRowOf(out.rows[i], seeds[k], replies[k].items[j]) && out.rows[i].normalized != ""
    ensures forall m :: 0 <= m < |out.rows| && m != i ==> out.rows[m].normalized != out.rows[i].normalized
  {
    var rows := Candidates(seeds, replies, out.queries);
    var at := KeptAreEarliest(rows);
    KeptApart(rows, at, i);
    k, j := CandidateFrom(seeds, replies, out.queries, at[i]);
  }

  /** No two rows of an answer have the same phrase, as the table demands. */
  lemma {:induction false} RowsApart(seeds: seq<Seed>, replies: seq<Reply>, out: Outcome)
    requires |seeds| == |replies| && Answers(seeds, replies, out)
    ensures out.Rows? ==>
              forall i, j :: 0 <= i < j < |out.rows| ==> out.rows[i].normalized != out.rows[j].normalized
  {
    if out.Rows? {
      forall i, j | 0 <= i < j < |out.rows| ensures out.rows[i].normalized != out.rows[j].normalized {
        var k, n := RowsAreReturned(seeds, replies, out, i);
      }
    }
  }

  lemma {:induction false} KeptApart(rows: seq<ResultRow>, at: seq<nat>, i: nat)
    requires Earliest(rows, |rows|, FirstOccurrences(rows), at) && i < |FirstOccurrences(rows)|
    ensures at[i] < |rows| && FirstOccurrences(rows)[i] == rows[at[i]] && rows[at[i]].normalized != ""
    ensures forall m :: 0 <= m < |at| && m != i ==>
              FirstOccurrences(rows)[m].normalized != FirstOccurrences(rows)[i].normalized
  {
    var kept := FirstOccurrences(rows);
    assert EarliestAt(rows, kept[i], at[i]);
    forall m | 0 <= m < |at| && m != i ensures kept[m].normalized != kept[i].normalized {
      assert EarliestAt(rows, kept[m], at[m]);
      assert if m < i then at[m] < at[i] else at[i] < at[m];
    }
  }

  /** An answer below the cap misses no phrase any of its queries returned. */
  lemma {:induction false} NothingReturnedIsMissing(seeds: seq<Seed>, replies: seq<Reply>, out: Outcome,
                                                    k: nat, j: nat)
    requires |seeds| == |replies| && Answers(seeds, replies, out) && out.Rows?
    requires |out.rows| < 1000 && k < out.queries
    ensures replies[k].Fetched?
    ensures j < |replies[k].items| && replies[k].items[j].normalized != "" ==>
              exists i :: 0 <= i < |out.rows| && out.rows[i].normalized == replies[k].items[j].normalized
  {
    assert Good(seeds, replies, k);
    if j < |replies[k].items| && replies[k].items[j].normalized != "" {
      var n := CandidateAt(seeds, replies, out.queries, k, j);
      var at := KeptAreEarliest(Candidates(seeds, replies, out.queries));
      assert Candidates(seeds, replies, out.queries)[n].normalized in Phrases(out.rows);
    }
  }

  /** A failure names what stopped query `k`, all queries before it having been answered. */
  ghost predicate StoppedAt(seeds: seq<Seed>, replies: seq<Reply>, k: nat, out: Outcome)
    requires k < |seeds| == |replies|
  {
    match seeds[k]
    case BadSeed => out == Failure("invalid_snapshot", k)
    case Seed(_, _) =>
      match replies[k]
      case Refused(code) => out == Failure(code, k + 1)
      case Broke => out == Failure("provider_execution_failed", k + 1)
      case Fetched(_) => false
  }

  /** A run fails at its first bad seed or failed query, with the code and the number of queries that go with it. */
  lemma {:induction false} FailureIsTheFirst(seeds: seq<Seed>, replies: seq<Reply>, out: Outcome) returns (k: nat)
    requires |seeds| == |replies| && Answers(seeds, replies, out) && out.Failure?
    ensures k < |seeds| && StoppedAt(seeds, replies, k, out)
    ensures forall i :: 0 <= i < k ==> seeds[i].Seed? && replies[i].Fetched?
  {
    k := if out.queries < |seeds| && Continues(seeds, replies, out.queries) && seeds[out.queries].BadSeed?
            && out.code == "invalid_snapshot"
         then out.queries else out.queries - 1;
    forall i | 0 <= i < k ensures seeds[i].Seed? && replies[i].Fetched? {
      assert Good(seeds, replies, i);
    }
  }

  lemma {:induction false} CandidatesBounded(seeds: seq<Seed>, replies: seq<Reply>, k: nat)
    requires k <= |seeds| == |replies|
    requires forall i :: 0 <= i < |replies| && replies[i].Fetched? ==> |replies[i].items| <= MAX_ROWS_PER_QUERY
    ensures |Candidates(seeds, replies, k)| <= k * MAX_ROWS_PER_QUERY
  {
    if k > 0 {
      CandidatesBounded(seeds, replies, k - 1);
    }
  }

  /**
   With at most ten seeds and a hundred rows per query the cap discards nothing, and the
   stored counts meet the bounds of the run table.
   */
  lemma {:induction false} CapDiscardsNothing(seeds: seq<Seed>, replies: seq<Reply>, out: Outcome)
    requires |seeds| == |replies| && Answers(seeds, replies, out)
    requires |seeds| <= MAX_SEED_QUERIES
    requires forall i :: 0 <= i < |replies| && replies[i].Fetched? ==> |replies[i].items| <= MAX_ROWS_PER_QUERY
    ensures out.queries <= 10
    ensures out.Rows? ==> |out.rows| <= 1000 && out.rows == Distinct(seeds, replies, |seeds|)
  {
    if out.Rows? {
      CandidatesBounded(seeds, replies, out.queries);
    }
  }
}
