/**
 Near-duplicate fingerprints of token lists: the 64-bit SimHash with its Hamming distance,
 and the MinHash signature. The token hashes are parameters, so every result holds for any
 hash; splitting a text into tokens is not part of this model.
 */
module Dedup {
  import Sets
  import Text

  type Tokens = seq<string>
  type Md5 = string -> nat
  type Sha1 = (nat, string) -> nat

  const BITS: nat := 64
  const DIGITS: nat := 16

  // ---------- bits of a number ----------

  /** `(n >> i) & 1`. */
  predicate Bit(n: nat, i: nat) {
    if i == 0 then n % 2 == 1 else Bit(n / 2, i - 1)
  }

  /** `n | (1 << i)`. */
  function SetBit(n: nat, i: nat): nat {
    if i == 0 then (if n % 2 == 0 then n + 1 else n) else 2 * SetBit(n / 2, i - 1) + n % 2
  }

  function Power2(k: nat): (p: nat)
    ensures p > 0
  {
    if k == 0 then 1 else 2 * Power2(k - 1)
  }

  lemma {:induction false} SetBitBits(n: nat, i: nat, j: nat)
    ensures Bit(SetBit(n, i), j) <==> i == j || Bit(n, j)
    decreases i
  {
    if i > 0 && j > 0 {
      SetBitBits(n / 2, i - 1, j - 1);
    }
  }

  lemma {:induction false} SetBitFits(n: nat, i: nat, k: nat)
    requires n < Power2(k) && i < k
    ensures SetBit(n, i) < Power2(k)
    decreases i
  {
    if i > 0 {
      SetBitFits(n / 2, i - 1, k - 1);
    }
  }

  /** A `k`-bit number is determined by its bits. */
  lemma {:induction false} BitsDetermine(a: nat, b: nat, k: nat)
    requires a < Power2(k) && b < Power2(k)
    requires forall i :: 0 <= i < k ==> (Bit(a, i) <==> Bit(b, i))
    ensures a == b
    decreases k
  {
    if k > 0 {
      assert Bit(a, 0) <==> Bit(b, 0);
      forall i | 0 <= i < k - 1 ensures Bit(a / 2, i) <==> Bit(b / 2, i) {
        assert Bit(a, i + 1) <==> Bit(b, i + 1);
      }
      BitsDetermine(a / 2, b / 2, k - 1);
    }
  }

  // ---------- the vote ----------

  function Signed(md5: Md5, token: string, i: nat, weight: int): int {
    if Bit(md5(token), i) then weight else -weight
  }

  /** Every occurrence of a token votes for or against bit `i`. */
  function Vote(md5: Md5, tokens: Tokens, i: nat): int {
    if |tokens| == 0 then 0
    else
      var n := |tokens| - 1;
      Vote(md5, tokens[..n], i) + Signed(md5, tokens[n], i, 1)
  }

  /** The number whose bit `i`, for `i < k`, is set exactly when the vote for it is positive. */
  function Elected(md5: Md5, tokens: Tokens, k: nat): nat {
    if k == 0 then 0
    else
      var before := Elected(md5, tokens, k - 1);
      if Vote(md5, tokens, k - 1) > 0 then SetBit(before, k - 1) else before
  }

  function Fingerprint(md5: Md5, tokens: Tokens): nat {
    Elected(md5, tokens, BITS)
  }

  lemma {:induction false} ElectedBits(md5: Md5, tokens: Tokens, k: nat, n: nat, i: nat)
    requires k <= n
    ensures Elected(md5, tokens, k) < Power2(n)
    ensures Bit(Elected(md5, tokens, k), i) <==> i < k && Vote(md5, tokens, i) > 0
    decreases k
  {
    if k == 0 {
      ZeroBits(i);
    } else {
      ElectedBits(md5, tokens, k - 1, n, i);
      SetBitBits(Elected(md5, tokens, k - 1), k - 1, i);
      SetBitFits(Elected(md5, tokens, k - 1), k - 1, n);
    }
  }

  lemma {:induction false} ZeroBits(i: nat)
    ensures !Bit(0, i)
  {
    if i > 0 {
      ZeroBits(i - 1);
    }
  }

  /** `n` has exactly the bits below `k` whose vote is positive. */
  ghost predicate Majority(md5: Md5, tokens: Tokens, n: nat, k: nat) {
    n < Power2(k) && forall i :: 0 <= i < k ==> (Bit(n, i) <==> Vote(md5, tokens, i) > 0)
  }

  lemma {:induction false} ElectedIsMajority(md5: Md5, tokens: Tokens, n: nat, k: nat)
    ensures n == Elected(md5, tokens, k) <==> Majority(md5, tokens, n, k)
  {
    var f := Elected(md5, tokens, k);
    ElectedBits(md5, tokens, k, k, 0);
    forall i | 0 <= i < k ensures Bit(f, i) <==> Vote(md5, tokens, i) > 0 {
      ElectedBits(md5, tokens, k, k, i);
    }
    if Majority(md5, tokens, n, k) {
      BitsDetermine(n, f, k);
    }
  }

  /** The fingerprint is the one 64-bit number that has exactly the bits with a positive vote. */
  lemma {:induction false} FingerprintIsMajority(md5: Md5, tokens: Tokens, n: nat)
    ensures n == Fingerprint(md5, tokens) <==> Majority(md5, tokens, n, BITS)
  {
    ElectedIsMajority(md5, tokens, n, BITS);
  }

  // ---------- counting tokens first ----------

  type Weights = map<string, nat>

  /** The votes of the counted tokens, each with its count. */
  function Weighted(md5: Md5, order: Tokens, weights: Weights, i: nat): int
    requires forall t :: t in order ==> t in weights
  {
    if |order| == 0 then 0
    else
      var n := |order| - 1;
      Weighted(md5, order[..n], weights, i) + Signed(md5, order[n], i, weights[order[n]])
  }

  ghost predicate Distinct(order: Tokens) {
    forall i, j :: 0 <= i < j < |order| ==> order[i] != order[j]
  }

  /** The positions of the tokens whose hash has bit `i`. */
  ghost function Voters(md5: Md5, tokens: Tokens, i: nat): set<nat> {
    set k: nat | k < |tokens| && Bit(md5(tokens[k]), i)
  }

  lemma {:induction false} VoteCountsTokens(md5: Md5, tokens: Tokens, i: nat)
    ensures Vote(md5, tokens, i) == 2 * |Voters(md5, tokens, i)| - |tokens|
    decreases |tokens|
  {
    if |tokens| == 0 {
      assert Voters(md5, tokens, i) == {};
    } else {
      var n := |tokens| - 1;
      VoteCountsTokens(md5, tokens[..n], i);
      var before := Voters(md5, tokens[..n], i);
      assert Voters(md5, tokens, i) == if Bit(md5(tokens[n]), i) then before + {n} else before;
    }
  }

  /** A bit of the fingerprint is set exactly when it is set in the hashes of more than half of the tokens. */
  lemma {:induction false} MostTokensDecide(md5: Md5, tokens: Tokens, i: nat)
    ensures Bit(Fingerprint(md5, tokens), i) <==> i < 64 && 2 * |Voters(md5, tokens, i)| > |tokens|
  {
    ElectedBits(md5, tokens, BITS, BITS, i);
    VoteCountsTokens(md5, tokens, i);
  }

  /** Changing the count of a token outside the list changes nothing. */
  lemma {:induction false} WeightedElsewhere(md5: Md5, order: Tokens, weights: Weights, t: string, w: nat, i: nat)
    requires t !in order && forall u :: u in order ==> u in weights
    ensures Weighted(md5, order, weights[t := w], i) == Weighted(md5, order, weights, i)
    decreases |order|
  {
    if |order| != 0 {
      var n := |order| - 1;
      assert order[n] in order && forall u :: u in order[..n] ==> u in order;
      WeightedElsewhere(md5, order[..n], weights, t, w, i);
    }
  }

  /** One more occurrence of a counted token is one more vote. */
  lemma {:induction false} WeightedAgain(md5: Md5, order: Tokens, weights: Weights, t: string, i: nat)
    requires Distinct(order) && t in order && forall u :: u in order ==> u in weights
    ensures Weighted(md5, order, weights[t := weights[t] + 1], i)
         == Weighted(md5, order, weights, i) + Signed(md5, t, i, 1)
    decreases |order|
  {
    var n := |order| - 1;
    var front := order[..n];
    assert order == front + [order[n]];
    if order[n] == t {
      assert t !in front;
      WeightedElsewhere(md5, front, weights, t, weights[t] + 1, i);
    } else {
      WeightedAgain(md5, front, weights, t, i);
    }
  }

  lemma {:induction false} WeightedFirst(md5: Md5, order: Tokens, weights: Weights, t: string, i: nat)
    requires t !in order && forall u :: u in order ==> u in weights
    ensures Weighted(md5, order + [t], weights[t := 1], i)
         == Weighted(md5, order, weights, i) + Signed(md5, t, i, 1)
  {
    WeightedElsewhere(md5, order, weights, t, 1, i);
    assert (order + [t])[..|order|] == order;
  }

  /** `Counter(tokens)`: its keys in order of first occurrence, and its counts. */
  method Count(md5: Md5, tokens: Tokens) returns (order: Tokens, weights: Weights)
    ensures Distinct(order) && (forall t :: t in order <==> t in weights) && (|order| == 0 <==> |tokens| == 0)
    ensures forall i :: 0 <= i < BITS ==> Weighted(md5, order, weights, i) == Vote(md5, tokens, i)
  {
    order, weights := [], map[];
    for k := 0 to |tokens|
      invariant Distinct(order) && (forall t :: t in order <==> t in weights) && (|order| == 0 <==> k == 0)
      invariant forall i :: 0 <= i < BITS ==> Weighted(md5, order, weights, i) == Vote(md5, tokens[..k], i)
    {
      var t := tokens[k];
      ghost var order0, weights0 := order, weights;
      if t in weights {
        weights := weights[t := weights[t] + 1];
      } else {
        order, weights := order + [t], weights[t := 1];
      }
      forall i | 0 <= i < BITS ensures Weighted(md5, order, weights, i) == Vote(md5, tokens[..k + 1], i) {
        assert tokens[..k + 1][..k] == tokens[..k];
        if t in weights0 {
          WeightedAgain(md5, order0, weights0, t, i);
        } else {
          WeightedFirst(md5, order0, weights0, t, i);
        }
      }
    }
    assert tokens[..|tokens|] == tokens;
  }

  /** Adds the votes of one counted token to the vote array. */
  method AddVotes(md5: Md5, v: array<int>, token: string, weight: nat)
    requires v.Length == BITS
    modifies v
    ensures forall i :: 0 <= i < BITS ==> v[i] == old(v[i]) + Signed(md5, token, i, weight)
  {
    var h := md5(token);
    for i := 0 to BITS
      invariant forall j :: 0 <= j < i ==> v[j] == old(v[j]) + Signed(md5, token, j, weight)
      invariant forall j :: i <= j < BITS ==> v[j] == old(v[j])
    {
      v[i] := if Bit(h, i) then v[i] + weight else v[i] - weight;
    }
  }

  method Simhash64(md5: Md5, tokens: Tokens) returns (hash: string)
    ensures hash == Text.Hex(Fingerprint(md5, tokens), DIGITS)
  {
    if |tokens| == 0 {
      NothingElected(md5, BITS);
      ZeroDigits(DIGITS);
      return "0000000000000000";
    }
    var order, weights := Count(md5, tokens);
    var v := new int[BITS](_ => 0);
    for k := 0 to |order|
      invariant forall i :: 0 <= i < BITS ==> v[i] == Weighted(md5, order[..k], weights, i)
    {
      assert order[..k + 1][..k] == order[..k];
      AddVotes(md5, v, order[k], weights[order[k]]);
    }
    assert order[..|order|] == order;
    var out: nat := 0;
    for i := 0 to BITS
      invariant out == Elected(md5, tokens, i)
    {
      if v[i] > 0 {
        out := SetBit(out, i);
      }
    }
    hash := Text.Hex(out, DIGITS);
  }

  lemma {:induction false} NothingElected(md5: Md5, k: nat)
    ensures Elected(md5, [], k) == 0
  {
    if k > 0 {
      NothingElected(md5, k - 1);
    }
  }

  lemma {:induction false} ZeroDigits(width: nat)
    ensures Text.Hex(0, width) == seq(width, _ => '0')
  {
    if width > 0 {
      ZeroDigits(width - 1);
    }
  }

  // ---------- what the fingerprint does not see ----------

  lemma {:induction false} VoteConcat(md5: Md5, a: Tokens, b: Tokens, i: nat)
    ensures Vote(md5, a + b, i) == Vote(md5, a, i) + Vote(md5, b, i)
    decreases |b|
  {
    if |b| == 0 {
      assert a + b == a;
    } else {
      var n := |b| - 1;
      assert (a + b)[..|a| + n] == a + b[..n];
      VoteConcat(md5, a, b[..n], i);
    }
  }

  lemma {:induction false} VoteWithout(md5: Md5, tokens: Tokens, k: nat, i: nat)
    requires k < |tokens|
    ensures Vote(md5, tokens, i) == Vote(md5, tokens[..k] + tokens[k + 1..], i) + Signed(md5, tokens[k], i, 1)
  {
    var a, t, b := tokens[..k], [tokens[k]], tokens[k + 1..];
    assert tokens == (a + t) + b;
    VoteConcat(md5, a + t, b, i);
    VoteConcat(md5, a, b, i);
    assert (a + t)[..k] == a;
  }

  lemma {:induction false} VoteReordered(md5: Md5, a: Tokens, b: Tokens, i: nat)
    requires multiset(a) == multiset(b)
    ensures Vote(md5, a, i) == Vote(md5, b, i)
    decreases |a|
  {
    if |a| == 0 {
      assert |multiset(b)| == 0;
    } else {
      var n := |a| - 1;
      var t := a[n];
      assert a == a[..n] + [t];
      assert t in multiset(b);
      var k :| 0 <= k < |b| && b[k] == t;
      assert b == b[..k] + [t] + b[k + 1..];
      assert multiset(a) == multiset(a[..n]) + multiset{t};
      assert multiset(b) == multiset(b[..k]) + multiset{t} + multiset(b[k + 1..]);
      assert multiset(a[..n]) == multiset(a) - multiset{t};
      assert multiset(b[..k] + b[k + 1..]) == multiset(b[..k]) + multiset(b[k + 1..]) == multiset(b) - multiset{t};
      VoteReordered(md5, a[..n], b[..k] + b[k + 1..], i);
      VoteWithout(md5, b, k, i);
    }
  }

  /** The whole list written `times` times over. */
  function Repeated(tokens: Tokens, times: nat): Tokens {
    if times == 0 then [] else Repeated(tokens, times - 1) + tokens
  }

  lemma {:induction false} VoteRepeated(md5: Md5, tokens: Tokens, times: nat, i: nat)
    requires times > 0
    ensures Vote(md5, Repeated(tokens, times), i) > 0 <==> Vote(md5, tokens, i) > 0
    ensures Vote(md5, Repeated(tokens, times), i) < 0 <==> Vote(md5, tokens, i) < 0
    decreases times
  {
    VoteConcat(md5, Repeated(tokens, times - 1), tokens, i);
    if times > 1 {
      VoteRepeated(md5, tokens, times - 1, i);
    }
  }

  lemma {:induction false} SameVerdicts(md5: Md5, a: Tokens, b: Tokens, k: nat)
    requires forall i :: 0 <= i < k ==> (Vote(md5, a, i) > 0 <==> Vote(md5, b, i) > 0)
    ensures Elected(md5, a, k) == Elected(md5, b, k)
  {
    if k > 0 {
      SameVerdicts(md5, a, b, k - 1);
    }
  }

  /** Reordering the tokens, or repeating the whole list, gives the same fingerprint. */
  lemma {:induction false} SameFingerprint(md5: Md5, a: Tokens, b: Tokens, times: nat)
    requires times > 0 && multiset(b) == multiset(Repeated(a, times))
    ensures Fingerprint(md5, a) == Fingerprint(md5, b)
  {
    forall i | 0 <= i < BITS ensures Vote(md5, a, i) > 0 <==> Vote(md5, b, i) > 0 {
      VoteReordered(md5, b, Repeated(a, times), i);
      VoteRepeated(md5, a, times, i);
    }
    SameVerdicts(md5, a, b, BITS);
  }

  lemma {:induction false} VoteBounded(md5: Md5, tokens: Tokens, i: nat)
    ensures -|tokens| <= Vote(md5, tokens, i) <= |tokens|
    decreases |tokens|
  {
    if |tokens| != 0 {
      VoteBounded(md5, tokens[..|tokens| - 1], i);
    }
  }

  /** The common tokens do not outvote the others on bit `i`. */
  ghost predicate Open(md5: Md5, common: Tokens, others: nat, i: nat) {
    0 < Vote(md5, common, i) + others && Vote(md5, common, i) <= others
  }

  /** Replacing at most `others` tokens leaves every bit on which the common tokens are decisive. */
  lemma {:induction false} ClearMajorityStays(md5: Md5, common: Tokens, a: Tokens, b: Tokens, others: nat, i: nat)
    requires |a| <= others && |b| <= others && !Open(md5, common, others, i)
    ensures Bit(Fingerprint(md5, common + a), i) <==> Bit(Fingerprint(md5, common + b), i)
  {
    VoteConcat(md5, common, a, i);
    VoteConcat(md5, common, b, i);
    VoteBounded(md5, a, i);
    VoteBounded(md5, b, i);
    ElectedBits(md5, common + a, BITS, BITS, i);
    ElectedBits(md5, common + b, BITS, BITS, i);
  }

  // ---------- the distance ----------

  function Xor(a: nat, b: nat): nat
    decreases a + b
  {
    if a == 0 && b == 0 then 0 else 2 * Xor(a / 2, b / 2) + (a % 2 + b % 2) % 2
  }

  function PopCount(n: nat): nat {
    if n == 0 then 0 else PopCount(n / 2) + n % 2
  }

  function Distance(a: nat, b: nat): nat {
    PopCount(Xor(a, b))
  }

  /** `hamming` on the hexadecimal forms. */
  function Hamming(a: string, b: string): nat {
    Distance(Text.ParseHex(a), Text.ParseHex(b))
  }

  lemma {:induction false} DistanceStep(a: nat, b: nat)
    ensures Distance(a, b) == if a == 0 && b == 0 then 0 else Distance(a / 2, b / 2) + (if a % 2 == b % 2 then 0 else 1)
  {
    var low := (a % 2 + b % 2) % 2;
    assert low == if a % 2 == b % 2 then 0 else 1;
    if a != 0 || b != 0 {
      var x := 2 * Xor(a / 2, b / 2) + low;
      assert x / 2 == Xor(a / 2, b / 2) && x % 2 == low;
    }
  }

  lemma {:induction false} DistanceSymmetric(a: nat, b: nat)
    ensures Distance(a, b) == Distance(b, a)
    decreases a + b
  {
    DistanceStep(a, b);
    DistanceStep(b, a);
    if a != 0 || b != 0 {
      DistanceSymmetric(a / 2, b / 2);
    }
  }

  lemma {:induction false} DistanceZeroIffEqual(a: nat, b: nat)
    ensures Distance(a, b) == 0 <==> a == b
    decreases a + b
  {
    DistanceStep(a, b);
    if a != 0 || b != 0 {
      DistanceZeroIffEqual(a / 2, b / 2);
    }
  }

  lemma {:induction false} DistanceTriangle(a: nat, b: nat, c: nat)
    ensures Distance(a, c) <= Distance(a, b) + Distance(b, c)
    decreases a + b + c
  {
    DistanceStep(a, c);
    DistanceStep(a, b);
    DistanceStep(b, c);
    if a != 0 || b != 0 || c != 0 {
      DistanceTriangle(a / 2, b / 2, c / 2);
    }
  }

  lemma {:induction false} DistanceBounded(a: nat, b: nat, k: nat)
    requires a < Power2(k) && b < Power2(k)
    ensures Distance(a, b) <= k
    decreases k
  {
    DistanceStep(a, b);
    if k > 0 {
      DistanceBounded(a / 2, b / 2, k - 1);
    }
  }

  /** Positions below `k` where the numbers differ. */
  ghost function Differing(a: nat, b: nat, k: nat): set<nat> {
    set i: nat | i < k && (Bit(a, i) <==> !Bit(b, i))
  }

  /** The distance of two `k`-bit numbers is the number of bit positions in which they differ. */
  lemma {:induction false} DistanceCountsBits(a: nat, b: nat, k: nat)
    requires a < Power2(k) && b < Power2(k)
    ensures Distance(a, b) == |Differing(a, b, k)|
    decreases k
  {
    DistanceStep(a, b);
    if k > 0 {
      DistanceCountsBits(a / 2, b / 2, k - 1);
      DifferingStep(a, b, k);
    }
  }

  lemma {:induction false} DifferingStep(a: nat, b: nat, k: nat)
    requires k > 0
    ensures |Differing(a, b, k)| == |Differing(a / 2, b / 2, k - 1)| + (if a % 2 == b % 2 then 0 else 1)
  {
    ShiftKeepsSize(Differing(a / 2, b / 2, k - 1));
    DifferingShifted(a, b, k);
  }

  lemma {:induction false} DifferingShifted(a: nat, b: nat, k: nat)
    requires k > 0
    ensures var up := Shifted(Differing(a / 2, b / 2, k - 1));
            Differing(a, b, k) == if a % 2 == b % 2 then up else up + {0}
  {
  }

  /** Every position one higher. */
  ghost function Shifted(s: set<nat>): (up: set<nat>)
    ensures forall y: nat :: y in up <==> y > 0 && y - 1 in s
  {
    set i | i in s :: i + 1
  }

  lemma {:induction false} ShiftKeepsSize(s: set<nat>)
    ensures |Shifted(s)| == |s|
    decreases |s|
  {
    if s == {} {
      assert Shifted(s) == {};
    } else {
      var x :| x in s;
      ShiftKeepsSize(s - {x});
      assert Shifted(s) == Shifted(s - {x}) + {x + 1};
    }
  }

  ghost function OpenBits(md5: Md5, common: Tokens, others: nat, k: nat): set<nat> {
    set i: nat | i < k && Open(md5, common, others, i)
  }

  /**
   Near-duplicates stay close: two token lists that differ in at most `others` tokens each are
   no further apart than the number of bits their common tokens leave open.
   */
  lemma {:induction false} NearDuplicatesStayClose(md5: Md5, common: Tokens, a: Tokens, b: Tokens, others: nat)
    requires |a| <= others && |b| <= others
    ensures Distance(Fingerprint(md5, common + a), Fingerprint(md5, common + b))
         <= |OpenBits(md5, common, others, BITS)|
  {
    var x, y := Fingerprint(md5, common + a), Fingerprint(md5, common + b);
    ElectedBits(md5, common + a, BITS, BITS, 0);
    ElectedBits(md5, common + b, BITS, BITS, 0);
    DistanceCountsBits(x, y, BITS);
    forall i | i in Differing(x, y, BITS) ensures i in OpenBits(md5, common, others, BITS) {
      if !Open(md5, common, others, i) {
        ClearMajorityStays(md5, common, a, b, others, i);
      }
    }
    Sets.SubsetSize(Differing(x, y, BITS), OpenBits(md5, common, others, BITS));
  }

  // ---------- comparing texts ----------

  /** `similarity_from_hamming` with its default of 64 bits. */
  function Similarity(distance: nat): real {
    1.0 - distance as real / 64.0
  }

  /** `compare_texts` on the tokens of the two texts. */
  method CompareTexts(md5: Md5, a: Tokens, b: Tokens) returns (similarity: real)
    ensures similarity == Similarity(Distance(Fingerprint(md5, a), Fingerprint(md5, b)))
  {
    var x := Simhash64(md5, a);
    var y := Simhash64(md5, b);
    FingerprintReadsBack(md5, a);
    FingerprintReadsBack(md5, b);
    similarity := Similarity(Hamming(x, y));
  }

  lemma {:induction false} HexPower(k: nat)
    ensures Text.Power16(k) == Power2(4 * k)
  {
    if k > 0 {
      HexPower(k - 1);
      var m := 4 * (k - 1);
      assert Power2(m + 4) == 2 * Power2(m + 3) == 4 * Power2(m + 2) == 8 * Power2(m + 1) == 16 * Power2(m);
    }
  }

  /** The sixteen digits hold the whole fingerprint. */
  lemma {:induction false} FingerprintReadsBack(md5: Md5, tokens: Tokens)
    ensures Text.ParseHex(Text.Hex(Fingerprint(md5, tokens), DIGITS)) == Fingerprint(md5, tokens)
  {
    ElectedBits(md5, tokens, BITS, BITS, 0);
    HexPower(DIGITS);
    Text.HexRoundTrip(Fingerprint(md5, tokens), DIGITS);
  }

  /** Similarities lie between zero and one, and only equal fingerprints reach one. */
  lemma {:induction false} SimilarityInRange(md5: Md5, a: Tokens, b: Tokens)
    ensures var s := Similarity(Distance(Fingerprint(md5, a), Fingerprint(md5, b)));
            0.0 <= s <= 1.0 && (s == 1.0 <==> Fingerprint(md5, a) == Fingerprint(md5, b))
  {
    ElectedBits(md5, a, BITS, BITS, 0);
    ElectedBits(md5, b, BITS, BITS, 0);
    DistanceBounded(Fingerprint(md5, a), Fingerprint(md5, b), BITS);
    DistanceZeroIffEqual(Fingerprint(md5, a), Fingerprint(md5, b));
  }

  /** The bit positions below `k` on which the two numbers agree. */
  ghost function Agreeing(a: nat, b: nat, k: nat): set<nat> {
    set i: nat | i < k && (Bit(a, i) <==> Bit(b, i))
  }

  ghost function Below(k: nat): (s: set<nat>)
    ensures |s| == k && forall i: nat :: i in s <==> i < k
  {
    if k == 0 then {} else Below(k - 1) + {k - 1}
  }

  /** The similarity of two texts is the share of the 64 bit positions on which their fingerprints agree. */
  lemma {:induction false} SimilarityIsShare(md5: Md5, a: Tokens, b: Tokens)
    ensures var x, y := Fingerprint(md5, a), Fingerprint(md5, b);
            Similarity(Distance(x, y)) == |Agreeing(x, y, 64)| as real / 64.0
  {
    var x, y := Fingerprint(md5, a), Fingerprint(md5, b);
    ElectedBits(md5, a, BITS, BITS, 0);
    ElectedBits(md5, b, BITS, BITS, 0);
    DistanceCountsBits(x, y, BITS);
    AgreeingSize(x, y, BITS);
  }

  lemma {:induction false} AgreeingSize(a: nat, b: nat, k: nat)
    ensures |Agreeing(a, b, k)| == k - |Differing(a, b, k)|
  {
    var differing := Differing(a, b, k);
    assert differing <= Below(k) && Below(k) - differing == Agreeing(a, b, k);
  }

  // ---------- MinHash ----------

  const SLOT_RANGE: nat := 0x8000_0000

  /** The least hash of any token, under hash number `i`. */
  function Least(sha1: Sha1, i: nat, tokens: Tokens): nat
    requires |tokens| > 0
  {
    var n := |tokens| - 1;
    var h := sha1(i, tokens[n]);
    if n == 0 then h
    else
      var least := Least(sha1, i, tokens[..n]);
      if h < least then h else least
  }

  function Slot(sha1: Sha1, i: nat, tokens: Tokens): nat {
    if |tokens| == 0 then 0 else Least(sha1, i, tokens) % SLOT_RANGE
  }

  method MinhashBuckets(sha1: Sha1, tokens: Tokens, numHashes: nat) returns (sig: seq<nat>)
    ensures |sig| == numHashes && forall i :: 0 <= i < numHashes ==> sig[i] == Slot(sha1, i, tokens)
    ensures forall i :: 0 <= i < numHashes ==> IsBucket(sha1, i, tokens, sig[i])
  {
    forall i: nat ensures IsBucket(sha1, i, tokens, Slot(sha1, i, tokens)) {
      SlotIsBucket(sha1, i, tokens);
    }
    if |tokens| == 0 {
      return seq(numHashes, _ => 0);
    }
    sig := [];
    for i := 0 to numHashes
      invariant |sig| == i && forall j :: 0 <= j < i ==> sig[j] == Slot(sha1, j, tokens)
    {
      var best := Least(sha1, i, tokens);
      sig := sig + [best % SLOT_RANGE];
    }
  }

  /** The bucket is a least hash of the tokens modulo 2^31, or zero if there are none. */
  ghost predicate IsBucket(sha1: Sha1, i: nat, tokens: Tokens, bucket: nat) {
    if |tokens| == 0 then bucket == 0
    else exists t :: t in tokens && bucket == sha1(i, t) % 2147483648
                     && forall u :: u in tokens ==> sha1(i, t) <= sha1(i, u)
  }

  lemma {:induction false} SlotIsBucket(sha1: Sha1, i: nat, tokens: Tokens)
    ensures IsBucket(sha1, i, tokens, Slot(sha1, i, tokens))
  {
    if |tokens| > 0 {
      LeastIsMinimum(sha1, i, tokens);
    }
  }

  lemma {:induction false} LeastIsMinimum(sha1: Sha1, i: nat, tokens: Tokens)
    requires |tokens| > 0
    ensures exists t :: t in tokens && sha1(i, t) == Least(sha1, i, tokens)
    ensures forall t :: t in tokens ==> Least(sha1, i, tokens) <= sha1(i, t)
    decreases |tokens|
  {
    var n := |tokens| - 1;
    assert tokens == tokens[..n] + [tokens[n]];
    if n > 0 {
      LeastIsMinimum(sha1, i, tokens[..n]);
    }
  }

  /** The signature depends on the set of tokens alone. */
  lemma {:induction false} SlotOfSet(sha1: Sha1, i: nat, a: Tokens, b: Tokens)
    requires forall t :: t in a <==> t in b
    ensures Slot(sha1, i, a) == Slot(sha1, i, b)
  {
    assert |a| > 0 ==> a[0] in b;
    assert |b| > 0 ==> b[0] in a;
    if |a| > 0 {
      LeastIsMinimum(sha1, i, a);
      LeastIsMinimum(sha1, i, b);
    }
  }

  /** Each slot of the union of two non-empty token sets is the slot of one of them. */
  lemma {:induction false} SlotOfUnion(sha1: Sha1, i: nat, a: Tokens, b: Tokens)
    requires |a| > 0 && |b| > 0
    ensures Least(sha1, i, a + b)
         == if Least(sha1, i, a) < Least(sha1, i, b) then Least(sha1, i, a) else Least(sha1, i, b)
    ensures Slot(sha1, i, a + b) == Slot(sha1, i, a) || Slot(sha1, i, a + b) == Slot(sha1, i, b)
  {
    LeastIsMinimum(sha1, i, a);
    LeastIsMinimum(sha1, i, b);
    LeastIsMinimum(sha1, i, a + b);
  }

  /**
   Two token lists share the least hash in a slot exactly when some token common to both
   has the least hash of their union, provided the hash tells the tokens apart.
   */
  lemma {:induction false} SlotSharedIffLeastIsCommon(sha1: Sha1, i: nat, a: Tokens, b: Tokens)
    requires |a| > 0 && |b| > 0
    requires forall s, t :: s in a && t in b && sha1(i, s) == sha1(i, t) ==> s == t
    ensures Least(sha1, i, a) == Least(sha1, i, b)
       <==> exists t :: t in a && t in b && sha1(i, t) == Least(sha1, i, a + b)
  {
    LeastIsMinimum(sha1, i, a);
    LeastIsMinimum(sha1, i, b);
    SlotOfUnion(sha1, i, a, b);
  }
}
