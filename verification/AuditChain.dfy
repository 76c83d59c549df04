/**
 The hash-linked audit log: how a record is appended, how the whole log is
 replayed, what a clean replay proves and which records a damaged log reports.

 SHA-256 over the canonical JSON body is a parameter `sha` of every definition.
 Nothing about it is assumed globally: uniqueness of history is stated as "equal,
 or here is a collision", and only the lemmas that say which ids are reported ask
 for a collision-free `sha`.
 */
module AuditChain {
  import opened Wrappers

  type Digest = string
  type Uuid = nat

  datatype Json =
    | JNull
    | JBool(b: bool)
    | JNum(n: int)
    | JStr(s: string)
    | JArr(items: seq<Json>)
    | JObj(fields: map<string, Json>)

  type Payload = map<string, Json>

  /** What a record says: everything the digest covers except the link to its predecessor. */
  datatype Content = Content(action: string, payload: Payload, tenant: Option<Uuid>, actor: Option<Uuid>)

  /** A stored row. The id orders the rows; it is not covered by the digest. */
  datatype Entry = Entry(id: int, action: string, payload: Option<Payload>,
                         tenant: Option<Uuid>, actor: Option<Uuid>,
                         recordHash: Digest, prevHash: Digest)

  /** The digest of a record's content and of the hash it links to. */
  type Sha = (Content, Digest) -> Digest

  const ZERO_HASH: Digest := "0000000000000000000000000000000000000000000000000000000000000000"

  /** The content of a stored row; a missing payload counts as the empty object. */
  function ContentOf(e: Entry): Content {
    Content(e.action, e.payload.GetOr(map[]), e.tenant, e.actor)
  }

  function Contents(log: seq<Entry>): (c: seq<Content>)
    ensures |c| == |log| && forall k :: 0 <= k < |log| ==> c[k] == ContentOf(log[k])
  {
    seq(|log|, k requires 0 <= k < |log| => ContentOf(log[k]))
  }

  /** The hash the next record links to. */
  function HeadHash(log: seq<Entry>): Digest {
    if |log| == 0 then ZERO_HASH else log[|log| - 1].recordHash
  }

  /** The row `append_audit` inserts after `log`. */
  function NextEntry(sha: Sha, log: seq<Entry>, id: int, c: Content): Entry {
    Entry(id, c.action, Some(c.payload), c.tenant, c.actor, sha(c, HeadHash(log)), HeadHash(log))
  }

  /** Row `k` links to its predecessor and its digest matches its content. */
  predicate Intact(sha: Sha, log: seq<Entry>, k: nat)
    requires k < |log|
  {
    && log[k].prevHash == HeadHash(log[..k])
    && log[k].recordHash == sha(ContentOf(log[k]), HeadHash(log[..k]))
  }

  /** The ids of the rows that are not intact, in log order. */
  function InvalidIds(sha: Sha, log: seq<Entry>): seq<int> {
    if |log| == 0 then []
    else InvalidIds(sha, log[..|log| - 1])
         + (if Intact(sha, log, |log| - 1) then [] else [log[|log| - 1].id])
  }

  ghost predicate Clean(sha: Sha, log: seq<Entry>) {
    InvalidIds(sha, log) == []
  }

  /** Two different inputs with one digest, or an input whose digest is the genesis marker. */
  ghost predicate Collision(sha: Sha, c1: Content, p1: Digest, c2: Content, p2: Digest) {
    || (sha(c1, p1) == sha(c2, p2) && (c1, p1) != (c2, p2))
    || sha(c1, p1) == ZERO_HASH
  }

  ghost predicate CollisionFree(sha: Sha) {
    forall c1, p1, c2, p2 :: !Collision(sha, c1, p1, c2, p2)
  }

  /** The replay loop of `verify_audit_chain`. */
  method VerifyAuditChain(sha: Sha, entries: seq<Entry>) returns (invalid: seq<int>)
    ensures invalid == InvalidIds(sha, entries)
  {
    var previous := ZERO_HASH;
    invalid := [];
    for k := 0 to |entries|
      invariant previous == HeadHash(entries[..k])
      invariant invalid == InvalidIds(sha, entries[..k])
    {
      var entry := entries[k];
      var expected := sha(ContentOf(entry), previous);
      assert entries[..k + 1][..k] == entries[..k];
      if entry.prevHash != previous || entry.recordHash != expected {
        invalid := invalid + [entry.id];
      }
      previous := entry.recordHash;
    }
    assert entries[..|entries|] == entries;
  }

  /** The audit table. Ids are handed out in insertion order, so row order is id order. */
  class AuditTable {
    const sha: Sha
    var rows: seq<Entry>
    var nextId: nat

    ghost predicate Valid()
      reads this
    {
      && (forall i, j :: 0 <= i < j < |rows| ==> rows[i].id < rows[j].id)
      && (forall i :: 0 <= i < |rows| ==> rows[i].id < nextId)
    }

    constructor (sha: Sha)
      ensures Valid() && rows == [] && this.sha == sha
    {
      this.sha := sha;
      rows := [];
      nextId := 1;
    }

    /** Appends one record. Whatever the log reported before, it reports after: the new row is intact. */
    method AppendAudit(action: string, payload: Option<Payload>, tenant: Option<Uuid>, actor: Option<Uuid>)
      returns (entry: Entry)
      requires Valid()
      modifies this
      ensures Valid()
      ensures entry == NextEntry(sha, old(rows), old(nextId), Content(action, payload.GetOr(map[]), tenant, actor))
      ensures entry.id == old(nextId) && entry.action == action && entry.tenant == tenant && entry.actor == actor
      ensures entry.payload == (if payload.Some? then payload else Some(map[]))
      ensures entry.prevHash == if old(rows) == [] then ZERO_HASH else old(rows)[|old(rows)| - 1].recordHash
      ensures entry.recordHash == sha(Content(action, entry.payload.value, tenant, actor), entry.prevHash)
      ensures rows == old(rows) + [entry] && nextId == old(nextId) + 1
      ensures InvalidIds(sha, rows) == InvalidIds(sha, old(rows))
    {
      var previous := if |rows| > 0 then rows[|rows| - 1].recordHash else ZERO_HASH;
      var recordPayload := payload.GetOr(map[]);
      var recordHash := sha(Content(action, recordPayload, tenant, actor), previous);
      entry := Entry(nextId, action, Some(recordPayload), tenant, actor, recordHash, previous);
      AppendedRowIsIntact(sha, rows, nextId, Content(action, recordPayload, tenant, actor));
      rows := rows + [entry];
      nextId := nextId + 1;
    }
  }

  lemma {:induction false} AppendedRowIsIntact(sha: Sha, log: seq<Entry>, id: int, c: Content)
    ensures InvalidIds(sha, log + [NextEntry(sha, log, id, c)]) == InvalidIds(sha, log)
  {
    var after := log + [NextEntry(sha, log, id, c)];
    assert after[..|log|] == log;
    assert Intact(sha, after, |log|);
  }

  /** A run of appends, one id and content each. */
  function AppendAll(sha: Sha, log: seq<Entry>, requests: seq<(int, Content)>): seq<Entry>
    decreases |requests|
  {
    if |requests| == 0 then log
    else AppendAll(sha, log + [NextEntry(sha, log, requests[0].0, requests[0].1)], requests[1..])
  }

  /** Any run of appends leaves the verdict of the log unchanged and its rows in place. */
  lemma {:induction false} AppendsKeepVerdict(sha: Sha, log: seq<Entry>, requests: seq<(int, Content)>)
    ensures InvalidIds(sha, AppendAll(sha, log, requests)) == InvalidIds(sha, log)
    ensures log <= AppendAll(sha, log, requests)
    ensures |AppendAll(sha, log, requests)| == |log| + |requests|
    decreases |requests|
  {
    if |requests| != 0 {
      AppendedRowIsIntact(sha, log, requests[0].0, requests[0].1);
      AppendsKeepVerdict(sha, log + [NextEntry(sha, log, requests[0].0, requests[0].1)], requests[1..]);
    }
  }

  // ---------- reading a verdict row by row ----------

  /** If row `i` is the only broken row then its id is the whole verdict; `i` out of range means none is. */
  lemma {:induction false} OnlyBrokenRow(sha: Sha, log: seq<Entry>, i: int)
    requires forall k :: 0 <= k < |log| ==> (Intact(sha, log, k) <==> k != i)
    ensures InvalidIds(sha, log) == if 0 <= i < |log| then [log[i].id] else []
    decreases |log|
  {
    if |log| != 0 {
      var front := log[..|log| - 1];
      forall k | 0 <= k < |front| ensures Intact(sha, front, k) <==> k != i {
        assert front[..k] == log[..k];
        assert Intact(sha, log, k) <==> k != i;
      }
      OnlyBrokenRow(sha, front, i);
      assert Intact(sha, log, |log| - 1) <==> |log| - 1 != i;
    }
  }

  /** A log verifies to no ids exactly when every row is intact. */
  lemma {:induction false} CleanIffIntact(sha: Sha, log: seq<Entry>)
    ensures Clean(sha, log) <==> forall k :: 0 <= k < |log| ==> Intact(sha, log, k)
    decreases |log|
  {
    if |log| != 0 {
      var front := log[..|log| - 1];
      CleanIffIntact(sha, front);
      forall k | 0 <= k < |front| ensures Intact(sha, front, k) == Intact(sha, log, k) {
        assert front[..k] == log[..k];
      }
      if Clean(sha, log) {
        forall k | 0 <= k < |log| ensures Intact(sha, log, k) {
          if k < |front| { assert Intact(sha, front, k); }
        }
      } else if Intact(sha, log, |log| - 1) {
        var k :| 0 <= k < |front| && !Intact(sha, front, k);
        assert !Intact(sha, log, k);
      }
    }
  }

  lemma {:induction false} CleanPrefix(sha: Sha, log: seq<Entry>, n: nat)
    requires Clean(sha, log) && n <= |log|
    ensures Clean(sha, log[..n])
  {
    CleanIffIntact(sha, log);
    forall k | 0 <= k < n ensures Intact(sha, log[..n], k) {
      assert log[..n][..k] == log[..k];
      assert Intact(sha, log, k);
    }
    CleanIffIntact(sha, log[..n]);
  }

  /** Row `k` names its predecessor's hash, and carries the digest of its own columns and that hash. */
  ghost predicate Sealed(sha: Sha, log: seq<Entry>, k: nat)
    requires k < |log|
  {
    var e := log[k];
    var payload := match e.payload case Some(p) => p case None => map[];
    && e.prevHash == (if k == 0 then ZERO_HASH else log[k - 1].recordHash)
    && e.recordHash == sha(Content(e.action, payload, e.tenant, e.actor), e.prevHash)
  }

  lemma {:induction false} ReportedUpTo(sha: Sha, log: seq<Entry>, n: nat, k: nat)
    requires forall i, j :: 0 <= i < j < |log| ==> log[i].id != log[j].id
    requires n <= |log| && k < |log|
    ensures log[k].id in InvalidIds(sha, log[..n]) <==> k < n && !Sealed(sha, log, k)
  {
    if n > 0 {
      ReportedUpTo(sha, log, n - 1, k);
      assert log[..n][..n - 1] == log[..n - 1];
      assert Intact(sha, log[..n], n - 1) <==> Sealed(sha, log, n - 1);
    }
  }

  /** A row is reported exactly when it is not sealed, for any log with distinct ids, damaged as it may be. */
  lemma {:induction false} ReportedIffNotSealed(sha: Sha, log: seq<Entry>, k: nat)
    requires forall i, j :: 0 <= i < j < |log| ==> log[i].id != log[j].id
    requires k < |log|
    ensures log[k].id in InvalidIds(sha, log) <==> !Sealed(sha, log, k)
  {
    ReportedUpTo(sha, log, |log|, k);
    assert log[..|log|] == log;
  }

  /** Every reported id is that of a row. */
  lemma {:induction false} OnlyRowsAreReported(sha: Sha, log: seq<Entry>, id: int)
    requires id in InvalidIds(sha, log)
    ensures exists k :: 0 <= k < |log| && log[k].id == id
    decreases |log|
  {
    if id != log[|log| - 1].id {
      OnlyRowsAreReported(sha, log[..|log| - 1], id);
    }
  }

  // ---------- uniqueness of history ----------

  /**
   Two logs that verify clean and end in the same record hash say the same things in
   the same order, or the proof hands over a collision of the digest. No assumption on
   `sha` is made.
   */
  lemma {:induction false} ForgeryYieldsCollision(sha: Sha, a: seq<Entry>, b: seq<Entry>)
    returns (c1: Content, p1: Digest, c2: Content, p2: Digest)
    requires Clean(sha, a) && Clean(sha, b) && HeadHash(a) == HeadHash(b)
    ensures Contents(a) == Contents(b) || Collision(sha, c1, p1, c2, p2)
    decreases |a|
  {
    var blank := Content("", map[], None, None);
    c1, p1, c2, p2 := blank, ZERO_HASH, blank, ZERO_HASH;
    CleanIffIntact(sha, a);
    CleanIffIntact(sha, b);
    if |a| == 0 && |b| == 0 {
      assert Contents(a) == Contents(b);
    } else if |a| == 0 {
      assert Intact(sha, b, |b| - 1);
      c1, p1 := ContentOf(b[|b| - 1]), HeadHash(b[..|b| - 1]);
    } else if |b| == 0 {
      assert Intact(sha, a, |a| - 1);
      c1, p1 := ContentOf(a[|a| - 1]), HeadHash(a[..|a| - 1]);
    } else {
      var m, n := |a| - 1, |b| - 1;
      assert Intact(sha, a, m) && Intact(sha, b, n);
      c1, p1, c2, p2 := ContentOf(a[m]), HeadHash(a[..m]), ContentOf(b[n]), HeadHash(b[..n]);
      if (c1, p1) == (c2, p2) {
        CleanPrefix(sha, a, m);
        CleanPrefix(sha, b, n);
        var d1, q1, d2, q2 := ForgeryYieldsCollision(sha, a[..m], b[..n]);
        if Contents(a[..m]) == Contents(b[..n]) {
          assert Contents(a) == Contents(a[..m]) + [c1];
          assert Contents(b) == Contents(b[..n]) + [c2];
        } else {
          c1, p1, c2, p2 := d1, q1, d2, q2;
        }
      }
    }
  }

  /** The record hashes of a clean log are a function of its contents alone. */
  lemma {:induction false} ContentsDetermineHashes(sha: Sha, a: seq<Entry>, b: seq<Entry>)
    requires Clean(sha, a) && Clean(sha, b) && Contents(a) == Contents(b)
    ensures |a| == |b| && HeadHash(a) == HeadHash(b)
    ensures forall k :: 0 <= k < |a| ==> a[k].recordHash == b[k].recordHash && a[k].prevHash == b[k].prevHash
    decreases |a|
  {
    assert |Contents(a)| == |Contents(b)|;
    if |a| != 0 {
      var n := |a| - 1;
      CleanPrefix(sha, a, n);
      CleanPrefix(sha, b, n);
      assert Contents(a[..n]) == Contents(a)[..n] == Contents(b)[..n] == Contents(b[..n]);
      ContentsDetermineHashes(sha, a[..n], b[..n]);
      CleanIffIntact(sha, a);
      CleanIffIntact(sha, b);
      assert Intact(sha, a, n) && Intact(sha, b, n);
      assert ContentOf(a[n]) == Contents(a)[n] == Contents(b)[n] == ContentOf(b[n]);
      forall k | 0 <= k < |a| ensures a[k].recordHash == b[k].recordHash && a[k].prevHash == b[k].prevHash {
        if k < n { assert a[..n][k] == a[k] && b[..n][k] == b[k]; }
      }
    }
  }

  /**
   Two clean logs carry the same record hash at position `i` of one and `j` of the other
   exactly when the positions coincide and everything up to them is the same history.
   */
  lemma {:induction false} EqualHashIffEqualHistory(sha: Sha, a: seq<Entry>, i: nat, b: seq<Entry>, j: nat)
    requires CollisionFree(sha) && Clean(sha, a) && Clean(sha, b) && i < |a| && j < |b|
    ensures a[i].recordHash == b[j].recordHash <==> Contents(a[..i + 1]) == Contents(b[..j + 1])
    ensures a[i].recordHash == b[j].recordHash ==> i == j
    ensures a[i].recordHash != ZERO_HASH
  {
    CleanPrefix(sha, a, i + 1);
    CleanPrefix(sha, b, j + 1);
    CleanIffIntact(sha, a);
    assert Intact(sha, a, i);
    var c := ContentOf(a[i]);
    assert !Collision(sha, c, HeadHash(a[..i]), c, HeadHash(a[..i]));
    if a[i].recordHash == b[j].recordHash {
      var c1, p1, c2, p2 := ForgeryYieldsCollision(sha, a[..i + 1], b[..j + 1]);
      assert !Collision(sha, c1, p1, c2, p2);
      assert |Contents(a[..i + 1])| == |Contents(b[..j + 1])|;
    } else if Contents(a[..i + 1]) == Contents(b[..j + 1]) {
      ContentsDetermineHashes(sha, a[..i + 1], b[..j + 1]);
    }
  }

  /** All record hashes of a clean log differ, and none is the genesis marker. */
  lemma {:induction false} RecordHashesDistinct(sha: Sha, a: seq<Entry>)
    requires CollisionFree(sha) && Clean(sha, a)
    ensures forall i, j :: 0 <= i < j < |a| ==> a[i].recordHash != a[j].recordHash
    ensures forall i :: 0 <= i < |a| ==> a[i].recordHash != ZERO_HASH
  {
    forall i, j | 0 <= i < j < |a| ensures a[i].recordHash != a[j].recordHash {
      EqualHashIffEqualHistory(sha, a, i, a, j);
    }
    forall i | 0 <= i < |a| ensures a[i].recordHash != ZERO_HASH {
      EqualHashIffEqualHistory(sha, a, i, a, i);
    }
  }

  /**
   Once two clean logs differ in content at position `i`, no record hash of one from
   `i` on occurs in the other at all: hiding a change means re-sealing the whole tail.
   */
  lemma {:induction false} ChangeForcesNewTail(sha: Sha, a: seq<Entry>, b: seq<Entry>, i: nat, k: nat, j: nat)
    requires CollisionFree(sha) && Clean(sha, a) && Clean(sha, b)
    requires i < |a| && i < |b| && ContentOf(a[i]) != ContentOf(b[i])
    requires i <= k < |a| && j < |b|
    ensures a[k].recordHash != b[j].recordHash
  {
    EqualHashIffEqualHistory(sha, a, k, b, j);
    assert Contents(a[..k + 1])[i] == ContentOf(a[i]);
    assert i <= j ==> Contents(b[..j + 1])[i] == ContentOf(b[i]);
  }

  // ---------- where damage is reported ----------

  /** Rewriting what row `i` says without touching its stored hashes reports row `i` and nothing else. */
  lemma {:induction false} EditedContentReportsThatRow(sha: Sha, a: seq<Entry>, i: nat, e: Entry)
    requires CollisionFree(sha) && Clean(sha, a) && i < |a|
    requires ContentOf(e) != ContentOf(a[i])
    requires e.recordHash == a[i].recordHash && e.prevHash == a[i].prevHash
    ensures InvalidIds(sha, a[i := e]) == [e.id]
  {
    CleanIffIntact(sha, a);
    var b := a[i := e];
    forall k | 0 <= k < |b| ensures Intact(sha, b, k) <==> k != i {
      IntactIffUnedited(sha, a, b, k);
    }
    OnlyBrokenRow(sha, b, i);
  }

  /** Only what rows say, and their ids, have been rewritten. */
  ghost predicate HashesKept(a: seq<Entry>, b: seq<Entry>) {
    |a| == |b| && forall k :: 0 <= k < |a| ==> SameHashes(a[k], b[k])
  }

  predicate SameHashes(e: Entry, f: Entry) {
    f.recordHash == e.recordHash && f.prevHash == e.prevHash
  }

  /** The ids of the rows among the first `n` that no longer say what they said, in order. */
  function EditedIds(a: seq<Entry>, b: seq<Entry>, n: nat): seq<int>
    requires n <= |a| == |b|
  {
    if n == 0 then []
    else
      var before := EditedIds(a, b, n - 1);
      if ContentOf(b[n - 1]) == ContentOf(a[n - 1]) then before else before + [b[n - 1].id]
  }

  lemma {:induction false} IntactIffUnedited(sha: Sha, a: seq<Entry>, b: seq<Entry>, k: nat)
    requires CollisionFree(sha) && HashesKept(a, b) && k < |a| && Intact(sha, a, k)
    ensures Intact(sha, b, k) <==> ContentOf(b[k]) == ContentOf(a[k])
  {
    assert SameHashes(a[k], b[k]);
    assert HeadHash(b[..k]) == HeadHash(a[..k]) by {
      assert k > 0 ==> SameHashes(a[k - 1], b[k - 1]);
    }
    assert !Collision(sha, ContentOf(b[k]), HeadHash(a[..k]), ContentOf(a[k]), HeadHash(a[..k]));
  }

  /** However many rows are rewritten, if their hashes stay, exactly the rewritten rows are reported. */
  lemma {:induction false} EditsReported(sha: Sha, a: seq<Entry>, b: seq<Entry>)
    requires CollisionFree(sha) && Clean(sha, a) && HashesKept(a, b)
    ensures InvalidIds(sha, b) == EditedIds(a, b, |a|)
  {
    EditsReportedUpTo(sha, a, b, |a|);
    assert b[..|a|] == b;
  }

  lemma {:induction false} EditsReportedUpTo(sha: Sha, a: seq<Entry>, b: seq<Entry>, n: nat)
    requires CollisionFree(sha) && Clean(sha, a) && HashesKept(a, b) && n <= |a|
    ensures InvalidIds(sha, b[..n]) == EditedIds(a, b, n)
  {
    if n > 0 {
      EditsReportedUpTo(sha, a, b, n - 1);
      CleanIffIntact(sha, a);
      IntactIffUnedited(sha, a, b, n - 1);
      assert b[..n][..n - 1] == b[..n - 1];
      assert Intact(sha, b[..n], n - 1) <==> Intact(sha, b, n - 1);
    }
  }

  /** Rewriting row `i` and re-sealing it moves the report to its successor; the last row has none. */
  lemma {:induction false} ResealedRowReportsSuccessor(sha: Sha, a: seq<Entry>, i: nat, id: int, c: Content)
    requires CollisionFree(sha) && Clean(sha, a) && i < |a|
    requires c != ContentOf(a[i])
    ensures InvalidIds(sha, a[i := NextEntry(sha, a[..i], id, c)])
         == if i + 1 < |a| then [a[i + 1].id] else []
  {
    CleanIffIntact(sha, a);
    var e := NextEntry(sha, a[..i], id, c);
    var b := a[i := e];
    assert Intact(sha, a, i);
    assert !Collision(sha, c, HeadHash(a[..i]), ContentOf(a[i]), HeadHash(a[..i]));
    forall k | 0 <= k < |b| ensures Intact(sha, b, k) <==> k != i + 1 {
      assert Intact(sha, a, k);
      if k <= i { assert b[..k] == a[..k]; }
      else if k == i + 1 { assert HeadHash(b[..k]) == e.recordHash; }
      else { assert HeadHash(b[..k]) == HeadHash(a[..k]); }
    }
    OnlyBrokenRow(sha, b, i + 1);
  }

  /** After deleting rows `i..j` of a clean log only the first survivor after the gap is broken. */
  lemma {:induction false} IntactAfterDeletion(sha: Sha, a: seq<Entry>, i: nat, j: nat, k: nat)
    requires CollisionFree(sha) && Clean(sha, a) && i < j <= |a| && k < i + |a| - j
    ensures Intact(sha, a[..i] + a[j..], k) <==> k != i
  {
    CleanIffIntact(sha, a);
    var b := a[..i] + a[j..];
    if k < i {
      assert b[..k] == a[..k] && Intact(sha, a, k);
    } else {
      var m := k - i + j;
      assert b[k] == a[m] && Intact(sha, a, m);
      assert HeadHash(a[..m]) == a[m - 1].recordHash;
      if k == i {
        RecordHashesDistinct(sha, a);
        assert b[..k] == a[..i];
      } else {
        assert HeadHash(b[..k]) == b[k - 1].recordHash == a[m - 1].recordHash;
      }
    }
  }

  /** Deleting rows `i..j` reports the first survivor after the gap; deleting a tail reports nothing. */
  lemma {:induction false} DeletedBlockReportsSurvivor(sha: Sha, a: seq<Entry>, i: nat, j: nat)
    requires CollisionFree(sha) && Clean(sha, a) && i < j <= |a|
    ensures InvalidIds(sha, a[..i] + a[j..]) == if j < |a| then [a[j].id] else []
  {
    var b := a[..i] + a[j..];
    forall k | 0 <= k < |b| ensures Intact(sha, b, k) <==> k != i {
      IntactAfterDeletion(sha, a, i, j, k);
    }
    OnlyBrokenRow(sha, b, i);
  }

  /** Ids are outside the digest: renumbering a clean log goes unnoticed. */
  lemma {:induction false} RenumberingIsInvisible(sha: Sha, a: seq<Entry>, b: seq<Entry>)
    requires Clean(sha, a) && |a| == |b|
    requires forall k :: 0 <= k < |a| ==> b[k] == a[k].(id := b[k].id)
    ensures Clean(sha, b)
  {
    CleanIffIntact(sha, a);
    forall k | 0 <= k < |b| ensures Intact(sha, b, k) {
      assert HeadHash(b[..k]) == HeadHash(a[..k]);
      assert Intact(sha, a, k);
    }
    CleanIffIntact(sha, b);
  }
}
