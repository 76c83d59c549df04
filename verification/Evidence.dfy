/**
 Bounded competitor evidence: texts with their whitespace normalised and cut at a limit,
 lists of them without repetition, and the two projections built from them.

 Cutting can leave a trailing space, so bounding a text once does not settle it; bounding it
 twice does.
 */
module Evidence {
  import opened Wrappers
  import Text

  const TEXT_LIMIT: nat := 180
  const ID_LIMIT: nat := 36
  const MAX_ITEMS: nat := 10
  const MAX_SECTIONS: nat := 8

  /** Decoded JSON; `Other` is any value the projections treat alike. */
  datatype Json =
    | Other
    | Whole(value: int)
    | Truth(on: bool)
    | Str(text: string)
    | List(items: seq<Json>)
    | Object(fields: map<string, Json>)

  /** `isinstance(value, int)`, which holds of the two truth values as well. */
  predicate IsInt(value: Json) {
    value.Whole? || value.Truth?
  }

  function Field(value: Json, key: string): Json {
    if value.Object? && key in value.fields then value.fields[key] else Other
  }

  // ---------- normalised texts ----------

  /** Every run of whitespace replaced by one space. */
  function Collapse(s: string): string {
    if |s| == 0 then ""
    else
      var n := |s| - 1;
      var front := Collapse(s[..n]);
      if !Text.IsSpace(s[n]) then front + [s[n]]
      else if n > 0 && Text.IsSpace(s[n - 1]) then front
      else front + [' ']
  }

  function Normalize(s: string): string {
    Text.Strip(Collapse(s))
  }

  /** The only whitespace is a single space, never next to another. */
  ghost predicate Collapsed(s: string) {
    forall i :: 0 <= i < |s| && Text.IsSpace(s[i]) ==> s[i] == ' ' && (i > 0 ==> s[i - 1] != ' ')
  }

  /** What a normalised text looks like. */
  ghost predicate Normal(s: string) {
    Collapsed(s) && Text.Stripped(s)
  }

  lemma {:induction false} CollapseCollapses(s: string)
    ensures Collapsed(Collapse(s))
    ensures |s| == 0 <==> |Collapse(s)| == 0
    ensures |s| > 0 ==> var c := Collapse(s); (c[|c| - 1] == ' ' <==> Text.IsSpace(s[|s| - 1]))
    decreases |s|
  {
    if |s| > 0 {
      CollapseCollapses(s[..|s| - 1]);
    }
  }

  lemma {:induction false} CollapsedIsFixed(s: string)
    requires Collapsed(s)
    ensures Collapse(s) == s
    decreases |s|
  {
    if |s| > 0 {
      CollapsedIsFixed(s[..|s| - 1]);
    }
  }

  lemma {:induction false} StripLeftIsSuffix(s: string) returns (k: nat)
    ensures k <= |s| && Text.StripLeft(s) == s[k..]
    decreases |s|
  {
    k := 0;
    if |s| > 0 && Text.IsSpace(s[0]) {
      k := StripLeftIsSuffix(s[1..]);
      k := k + 1;
    }
  }

  /** Normalising gives a normal text, and changes no other. */
  lemma {:induction false} NormalizeIffNormal(s: string)
    ensures Normal(Normalize(s))
    ensures Normal(s) <==> Normalize(s) == s
  {
    CollapseCollapses(s);
    var c := Collapse(s);
    var k := StripLeftIsSuffix(c);
    Text.StripStrips(c);
    Text.StripRightEnds(Text.StripLeft(c));
    var t := Text.Strip(c);
    forall i | 0 <= i < |t| && Text.IsSpace(t[i]) ensures t[i] == ' ' && (i > 0 ==> t[i - 1] != ' ') {
      assert t[i] == c[k + i];
    }
    if Normal(s) {
      CollapsedIsFixed(s);
      Text.StrippedIsFixed(s);
    }
  }

  /** The maximal runs of other characters between whitespace, in order. */
  function Words(s: string): seq<string> {
    if |s| == 0 then []
    else
      var n := |s| - 1;
      var before := Words(s[..n]);
      if Text.IsSpace(s[n]) then before else Extended(before, n > 0 && !Text.IsSpace(s[n - 1]), s[n])
  }

  /** One more character, of the last word if it goes on. */
  function Extended(words: seq<string>, goesOn: bool, c: char): seq<string> {
    if goesOn && |words| > 0 then words[..|words| - 1] + [words[|words| - 1] + [c]] else words + [[c]]
  }

  lemma {:induction false} WordsAppend(s: string, c: char)
    ensures Words(s + [c])
         == if Text.IsSpace(c) then Words(s)
            else Extended(Words(s), |s| > 0 && !Text.IsSpace(s[|s| - 1]), c)
  {
    assert (s + [c])[..|s|] == s;
  }

  lemma {:induction false} CollapseKeepsWords(s: string)
    ensures Words(Collapse(s)) == Words(s)
    decreases |s|
  {
    if |s| > 0 {
      var n := |s| - 1;
      var front := Collapse(s[..n]);
      CollapseKeepsWords(s[..n]);
      if Text.IsSpace(s[n]) {
        WordsAppend(front, ' ');
      } else {
        CollapseEnds(s[..n]);
        WordsAppend(front, s[n]);
        WordsUnfold(s);
      }
    }
  }

  lemma {:induction false} WordsUnfold(s: string)
    requires |s| > 0 && !Text.IsSpace(s[|s| - 1])
    ensures var front := s[..|s| - 1];
            Words(s) == Extended(Words(front), |front| > 0 && !Text.IsSpace(front[|front| - 1]), s[|s| - 1])
  {
  }

  lemma {:induction false} CollapseEnds(s: string)
    ensures |s| == 0 <==> |Collapse(s)| == 0
    ensures |s| > 0 ==> (Text.IsSpace(Collapse(s)[|Collapse(s)| - 1]) <==> Text.IsSpace(s[|s| - 1]))
  {
    CollapseCollapses(s);
  }

  lemma {:induction false} SpaceInFront(s: string)
    requires |s| > 0 && Text.IsSpace(s[0])
    ensures Words(s[1..]) == Words(s)
    decreases |s|
  {
    var n := |s| - 1;
    if n > 0 {
      SpaceInFront(s[..n]);
      assert s[..n][1..] == s[1..][..n - 1];
      assert s[1..][n - 1] == s[n] && (n > 1 ==> s[1..][n - 2] == s[n - 1]);
    }
  }

  lemma {:induction false} StripLeftKeepsWords(s: string)
    ensures Words(Text.StripLeft(s)) == Words(s)
    decreases |s|
  {
    if |s| > 0 && Text.IsSpace(s[0]) {
      SpaceInFront(s);
      StripLeftKeepsWords(s[1..]);
    }
  }

  lemma {:induction false} StripRightKeepsWords(s: string)
    ensures Words(Text.StripRight(s)) == Words(s)
    decreases |s|
  {
    if |s| > 0 && Text.IsSpace(s[|s| - 1]) {
      StripRightKeepsWords(s[..|s| - 1]);
    }
  }

  /** Normalising keeps the words of a text, and their order. */
  lemma {:induction false} NormalizeKeepsWords(s: string)
    ensures Words(Normalize(s)) == Words(s)
  {
    CollapseKeepsWords(s);
    StripLeftKeepsWords(Collapse(s));
    StripRightKeepsWords(Text.StripLeft(Collapse(s)));
  }

  // ---------- one bounded text ----------

  function Cut(s: string, limit: nat): string {
    if |s| <= limit then s else s[..limit]
  }

  /** `_bounded_text`. */
  function BoundedText(value: Json, limit: nat): Option<string> {
    if !value.Str? || Normalize(value.text) == "" then None else Some(Cut(Normalize(value.text), limit))
  }

  ghost predicate EndsInSpace(s: string) {
    |s| > 0 && s[|s| - 1] == ' '
  }

  /** Only texts with a word are bounded: to the first characters of their words put one space apart. */
  lemma {:induction false} BoundedTextIsPrefix(value: Json, limit: nat)
    ensures BoundedText(value, limit).Some? <==> value.Str? && Words(value.text) != []
    ensures BoundedText(value, limit).Some? ==>
              exists full :: Normal(full) && Words(full) == Words(value.text)
                             && IsPrefix(BoundedText(value, limit).value, full, limit)
  {
    if value.Str? {
      NormalizeIffNormal(value.text);
      NormalizeKeepsWords(value.text);
      NoWords(Normalize(value.text));
      if Words(value.text) != [] {
        assert IsPrefix(BoundedText(value, limit).value, Normalize(value.text), limit);
      }
    }
  }

  ghost predicate IsPrefix(t: string, full: string, limit: nat) {
    t <= full && |t| == if |full| <= limit then |full| else limit
  }

  lemma {:induction false} NoWords(s: string)
    requires Normal(s)
    ensures Words(s) == [] <==> s == ""
  {
  }

  /** A bounded text is normal up to one trailing space, which only cutting can leave. */
  lemma {:induction false} BoundedTextShape(value: Json, limit: nat)
    requires limit > 0 && BoundedText(value, limit).Some?
    ensures var t := BoundedText(value, limit).value;
            && 0 < |t| <= limit && Collapsed(t) && !Text.IsSpace(t[0])
            && (Normal(t) <==> !EndsInSpace(t))
            && (EndsInSpace(t) ==> |t| == limit)
  {
    NormalizeIffNormal(value.text);
    var full := Normalize(value.text);
    var t := Cut(full, limit);
    forall i | 0 <= i < |t| && Text.IsSpace(t[i]) ensures t[i] == ' ' && (i > 0 ==> t[i - 1] != ' ') {
      assert t[i] == full[i];
    }
    assert t[0] == full[0];
  }

  /** Bounding a bounded text again changes it exactly when it ends in a space, which is then dropped. */
  lemma {:induction false} BoundedAgain(t: string, limit: nat)
    requires 0 < |t| <= limit && Collapsed(t) && !Text.IsSpace(t[0])
    ensures BoundedText(Str(t), limit) == Some(if EndsInSpace(t) then t[..|t| - 1] else t)
    ensures EndsInSpace(t) ==> |t| > 1 && Normal(t[..|t| - 1])
  {
    CollapsedIsFixed(t);
    assert Text.StripLeft(t) == t;
    assert Text.IsSpace(t[|t| - 1]) <==> EndsInSpace(t);
    if EndsInSpace(t) {
      var front := t[..|t| - 1];
      assert t[|t| - 1] == ' ';
      assert front[|front| - 1] == t[|t| - 2];
      assert !Text.IsSpace(front[|front| - 1]);
      assert Text.StripRight(front) == front;
    }
  }

  /** Two passes settle a text, for every input and limit. */
  lemma {:induction false} TextSettlesInTwo(value: Json, limit: nat)
    requires limit > 0 && BoundedText(value, limit).Some?
    ensures var once := BoundedText(value, limit).value;
            var twice := BoundedText(Str(once), limit);
            && twice.Some? && Normal(twice.value) && BoundedText(Str(twice.value), limit) == twice
            && (twice == Some(once) <==> !EndsInSpace(once))
  {
    BoundedTextShape(value, limit);
    var once := BoundedText(value, limit).value;
    BoundedAgain(once, limit);
    var twice := BoundedText(Str(once), limit).value;
    BoundedAgain(twice, limit);
  }

  /** One pass does not: 179 letters, a space and another letter. */
  lemma {:induction false} TextNotSettledInOne() returns (s: string)
    ensures var once := BoundedText(Str(s), TEXT_LIMIT);
            once.Some? && BoundedText(Str(once.value), TEXT_LIMIT) != once
  {
    var a := seq(179, _ => 'a');
    s := a + " b";
    assert Normal(s);
    NormalizeIffNormal(s);
    assert s[..TEXT_LIMIT] == a + " ";
    TextSettlesInTwo(Str(s), TEXT_LIMIT);
  }

  // ---------- bounded lists ----------

  /** The distinct bounded texts of the first `n` items, at most ten. */
  function Items(items: seq<Json>, n: nat): (kept: seq<string>)
    requires n <= |items|
    ensures |kept| <= MAX_ITEMS
  {
    if n == 0 then []
    else
      var before := Items(items, n - 1);
      var t := BoundedText(items[n - 1], TEXT_LIMIT);
      if |before| == MAX_ITEMS || t.None? || t.value in before then before else before + [t.value]
  }

  function Bounded(value: Json): seq<string> {
    if value.List? then Items(value.items, |value.items|) else []
  }

  /** `_bounded_items`. */
  method BoundedItems(value: Json) returns (result: seq<string>)
    ensures result == Bounded(value)
  {
    if !value.List? {
      return [];
    }
    result := [];
    for k := 0 to |value.items|
      invariant result == Items(value.items, k) && |result| < MAX_ITEMS
    {
      var normalized := BoundedText(value.items[k], TEXT_LIMIT);
      ItemsNext(value.items, k, normalized);
      if normalized.Some? && normalized.value != "" && normalized.value !in result {
        result := result + [normalized.value];
      }
      if |result| == MAX_ITEMS {
        FullStays(value.items, k + 1, |value.items|);
        break;
      }
    }
  }

  lemma {:induction false} ItemsNext(items: seq<Json>, k: nat, t: Option<string>)
    requires k < |items| && t == BoundedText(items[k], TEXT_LIMIT) && |Items(items, k)| < MAX_ITEMS
    ensures var before := Items(items, k);
            && t != Some("")
            && Items(items, k + 1) == if t.None? || t.value in before then before else before + [t.value]
  {
    if t.Some? {
      BoundedTextShape(items[k], TEXT_LIMIT);
    }
  }

  lemma {:induction false} FullStays(items: seq<Json>, k: nat, n: nat)
    requires k <= n <= |items| && |Items(items, k)| == MAX_ITEMS
    ensures Items(items, n) == Items(items, k)
    decreases n
  {
    if k < n {
      FullStays(items, k, n - 1);
    }
  }

  ghost predicate Distinct(texts: seq<string>) {
    forall i, j :: 0 <= i < j < |texts| ==> texts[i] != texts[j]
  }

  /** A bounded text of some value. */
  ghost predicate IsBounded(t: string) {
    0 < |t| <= TEXT_LIMIT && Collapsed(t) && !Text.IsSpace(t[0])
  }

  /** What the list holds: distinct bounded texts, all of them when there is room. */
  lemma {:induction false} ItemsAre(items: seq<Json>, n: nat)
    requires n <= |items|
    ensures Distinct(Items(items, n)) && AllBounded(Items(items, n))
    ensures forall t :: t in Items(items, n) ==> ComesFrom(items, n, t)
    ensures |Items(items, n)| < MAX_ITEMS ==> HasAll(items, n, Items(items, n))
  {
    ItemsKept(items, n);
  }

  lemma {:induction false} ItemsKept(items: seq<Json>, n: nat)
    requires n <= |items|
    ensures KeptOf(items, n, Items(items, n))
  {
    if n > 0 {
      ItemsKept(items, n - 1);
      ItemKept(items, n - 1, Items(items, n - 1));
      ItemsStep(items, n - 1);
    }
  }

  lemma {:induction false} ItemsStep(items: seq<Json>, n: nat)
    requires n < |items|
    ensures Items(items, n + 1) == WithItem(Items(items, n), BoundedText(items[n], TEXT_LIMIT))
  {
  }

  /** The texts are distinct, bounded, from the first `n` items, and all of them when there is room. */
  ghost predicate KeptOf(items: seq<Json>, n: nat, texts: seq<string>)
    requires n <= |items|
  {
    && |texts| <= MAX_ITEMS && Distinct(texts) && AllBounded(texts)
    && (forall t :: t in texts ==> ComesFrom(items, n, t))
    && (|texts| < MAX_ITEMS ==> HasAll(items, n, texts))
  }

  ghost function WithItem(before: seq<string>, t: Option<string>): seq<string> {
    if |before| == MAX_ITEMS || t.None? || t.value in before then before else before + [t.value]
  }

  ghost predicate AllBounded(texts: seq<string>) {
    forall t :: t in texts ==> IsBounded(t)
  }

  /** The text is what bounding makes of one of the first `n` items. */
  ghost predicate ComesFrom(items: seq<Json>, n: nat, t: string)
    requires n <= |items|
  {
    exists i :: 0 <= i < n && BoundedText(items[i], TEXT_LIMIT) == Some(t)
  }

  ghost predicate HasAll(items: seq<Json>, n: nat, texts: seq<string>)
    requires n <= |items|
  {
    forall i :: 0 <= i < n && BoundedText(items[i], TEXT_LIMIT).Some? ==>
      BoundedText(items[i], TEXT_LIMIT).value in texts
  }

  lemma {:induction false} BoundedIsBounded(value: Json)
    requires BoundedText(value, TEXT_LIMIT).Some?
    ensures IsBounded(BoundedText(value, TEXT_LIMIT).value)
  {
    BoundedTextShape(value, TEXT_LIMIT);
  }

  lemma {:induction false} BoundedAppend(texts: seq<string>, t: string)
    requires Distinct(texts) && AllBounded(texts) && t !in texts && IsBounded(t)
    ensures Distinct(texts + [t]) && AllBounded(texts + [t])
  {
  }

  lemma {:induction false} StillComeFrom(items: seq<Json>, n: nat, texts: seq<string>)
    requires n < |items| && forall t :: t in texts ==> ComesFrom(items, n, t)
    ensures forall t :: t in texts ==> ComesFrom(items, n + 1, t)
  {
    forall t | t in texts ensures ComesFrom(items, n + 1, t) {
      assert ComesFrom(items, n, t);
    }
  }

  lemma {:induction false} HasOneMore(items: seq<Json>, n: nat, before: seq<string>, after: seq<string>)
    requires n < |items| && HasAll(items, n, before) && before <= after
    requires BoundedText(items[n], TEXT_LIMIT).Some? ==> BoundedText(items[n], TEXT_LIMIT).value in after
    ensures HasAll(items, n + 1, after)
  {
  }

  lemma {:induction false} ItemKept(items: seq<Json>, n: nat, before: seq<string>)
    requires n < |items| && KeptOf(items, n, before)
    ensures KeptOf(items, n + 1, WithItem(before, BoundedText(items[n], TEXT_LIMIT)))
  {
    var t := BoundedText(items[n], TEXT_LIMIT);
    var after := WithItem(before, t);
    StillComeFrom(items, n, before);
    if |before| < MAX_ITEMS {
      HasOneMore(items, n, before, after);
    }
    if after != before {
      BoundedIsBounded(items[n]);
      BoundedAppend(before, t.value);
      assert ComesFrom(items, n + 1, t.value);
    }
  }

  function Texts(texts: seq<string>): (items: seq<Json>)
    ensures |items| == |texts| && forall i :: 0 <= i < |texts| ==> items[i] == Str(texts[i])
  {
    seq(|texts|, i requires 0 <= i < |texts| => Str(texts[i]))
  }

  ghost predicate AllNormal(texts: seq<string>) {
    forall t :: t in texts ==> Normal(t)
  }

  /** A list of distinct settled texts within the limits is kept as it is. */
  lemma {:induction false} SettledItems(texts: seq<string>, n: nat)
    requires n <= |texts| <= MAX_ITEMS && Distinct(texts) && AllBounded(texts) && AllNormal(texts)
    ensures Items(Texts(texts), n) == texts[..n]
  {
    if n > 0 {
      SettledItems(texts, n - 1);
      SettledStep(texts, n - 1);
    }
  }

  lemma {:induction false} SettledStep(texts: seq<string>, n: nat)
    requires n < |texts| <= MAX_ITEMS && Distinct(texts) && AllBounded(texts) && AllNormal(texts)
    requires Items(Texts(texts), n) == texts[..n]
    ensures Items(Texts(texts), n + 1) == texts[..n + 1]
  {
    ItemsStep(Texts(texts), n);
    SettledNext(texts, n);
    assert texts[..n + 1] == texts[..n] + [texts[n]];
  }

  lemma {:induction false} SettledNext(texts: seq<string>, n: nat)
    requires n < |texts| <= MAX_ITEMS && Distinct(texts) && AllBounded(texts) && AllNormal(texts)
    ensures texts[n] !in texts[..n] && BoundedText(Str(texts[n]), TEXT_LIMIT) == Some(texts[n])
  {
    assert texts[n] in texts;
    BoundedAgain(texts[n], TEXT_LIMIT);
  }

  /** Every text in a list of bounded texts is normal, once the list is bounded again. */
  lemma {:induction false} SecondPassNormal(texts: seq<string>, n: nat)
    requires n <= |texts| && forall t :: t in texts ==> IsBounded(t)
    ensures forall t :: t in Items(Texts(texts), n) ==> IsBounded(t) && Normal(t)
  {
    if n > 0 {
      SecondPassNormal(texts, n - 1);
      assert texts[n - 1] in texts;
      BoundedAgain(texts[n - 1], TEXT_LIMIT);
      BoundedTextShape(Str(texts[n - 1]), TEXT_LIMIT);
    }
  }

  /** Bounding a bounded list again keeps it exactly when none of its texts ends in a space. */
  lemma {:induction false} ItemsSettledIff(value: Json)
    ensures var once := Bounded(value);
            Bounded(List(Texts(once))) == once <==> forall t :: t in once ==> !EndsInSpace(t)
  {
    var once := Bounded(value);
    if value.List? {
      ItemsAre(value.items, |value.items|);
    }
    if forall t :: t in once ==> !EndsInSpace(t) {
      SettledItems(once, |once|);
      assert once[..|once|] == once;
    } else {
      SecondPassNormal(once, |once|);
    }
  }

  /** Two passes settle a list, whatever its items. */
  lemma {:induction false} ItemsSettleInTwo(value: Json)
    ensures var twice := Bounded(List(Texts(Bounded(value))));
            AllNormal(twice) && Bounded(List(Texts(twice))) == twice
  {
    var once := Bounded(value);
    if value.List? {
      ItemsAre(value.items, |value.items|);
    }
    SecondPassNormal(once, |once|);
    ItemsAre(Texts(once), |once|);
    var twice := Bounded(List(Texts(once)));
    SettledItems(twice, |twice|);
    assert twice[..|twice|] == twice;
  }

  // ---------- the two projections ----------

  predicate IsSection(name: string) {
    name in {"hero", "services", "pricing", "faq", "contacts"}
  }

  /** Where a skeleton's section keeps its label. */
  function TypeOf(item: Json): Json {
    Field(item, "type")
  }

  /** In a stored row the label is the item. */
  function Itself(item: Json): Json {
    item
  }

  /** The known section labels among the items, in order; `of` picks the label out of an item. */
  function Labels(items: seq<Json>, of: Json -> Json): (labels: seq<string>)
    ensures forall l :: l in labels ==> IsSection(l)
  {
    if |items| == 0 then []
    else
      var n := |items| - 1;
      var before := Labels(items[..n], of);
      var name := of(items[n]);
      if name.Str? && IsSection(name.text) then before + [name.text] else before
  }

  /** The first occurrence of every label. */
  function Unique(labels: seq<string>): (unique: seq<string>)
    ensures forall l :: l in unique ==> l in labels
  {
    if |labels| == 0 then []
    else
      var n := |labels| - 1;
      var before := Unique(labels[..n]);
      if labels[n] in before then before else before + [labels[n]]
  }

  function FirstEight(labels: seq<string>): seq<string> {
    if MAX_SECTIONS <= |labels| then labels[..MAX_SECTIONS] else labels
  }

  /** The evidence row; the constant fields are left out. */
  datatype Row = Row(scanId: string, urlCount: Json, titles: seq<string>, h1s: seq<string>, faqs: seq<string>,
                     sections: seq<string>)

  function AsJson(row: Row): Json {
    Object(map["source_scan_id" := Str(row.scanId), "source_url_count" := row.urlCount,
               "signals" := Object(map["sample_titles" := List(Texts(row.titles)),
                                       "sample_h1" := List(Texts(row.h1s)),
                                       "sample_faq" := List(Texts(row.faqs)),
                                       "structural_sections" := List(Texts(row.sections))])])
  }

  function CountStrings(items: seq<Json>): nat {
    if |items| == 0 then 0
    else CountStrings(items[..|items| - 1]) + if items[|items| - 1].Str? then 1 else 0
  }

  /** `approved_evidence_content`. */
  function Approved(scanId: string, urls: Json, skeleton: Json): Row {
    var sections := Field(skeleton, "sections");
    Row(scanId, Whole(if urls.List? then CountStrings(urls.items) else 0),
        Bounded(Field(skeleton, "sample_titles")), Bounded(Field(skeleton, "sample_h1")),
        Bounded(Field(skeleton, "sample_faq")),
        if sections.List? then FirstEight(Unique(Labels(sections.items, TypeOf))) else [])
  }

  /** The positions of the strings among the items. */
  ghost function Strings(items: seq<Json>): set<nat> {
    set i: nat | i < |items| && items[i].Str?
  }

  lemma {:induction false} StringsCounted(items: seq<Json>)
    ensures CountStrings(items) == |Strings(items)|
    decreases |items|
  {
    if |items| == 0 {
      assert Strings(items) == {};
    } else {
      var n := |items| - 1;
      StringsCounted(items[..n]);
      var before := Strings(items[..n]);
      assert Strings(items) == if items[n].Str? then before + {n} else before;
    }
  }

  /** The bounded texts an object holds under a key, none if there is no such list. */
  ghost function TextsUnder(value: Json, key: string): seq<string> {
    if value.Object? && key in value.fields && value.fields[key].List? then Bounded(value.fields[key]) else []
  }

  /** `approved_evidence_content`, with its loop over the sections. */
  method ApprovedEvidenceContent(scanId: string, urls: Json, skeleton: Json) returns (row: Row)
    ensures row == Approved(scanId, urls, skeleton)
    ensures row.scanId == scanId && row.titles == TextsUnder(skeleton, "sample_titles")
    ensures row.h1s == TextsUnder(skeleton, "sample_h1") && row.faqs == TextsUnder(skeleton, "sample_faq")
    ensures row.urlCount == Whole(if urls.List? then |Strings(urls.items)| else 0)
  {
    if urls.List? {
      StringsCounted(urls.items);
    }
    var sections := Field(skeleton, "sections");
    var structural: seq<string> := [];
    if sections.List? {
      for k := 0 to |sections.items|
        invariant structural == Labels(sections.items[..k], TypeOf)
      {
        assert sections.items[..k + 1][..k] == sections.items[..k];
        var name := TypeOf(sections.items[k]);
        if name.Str? && IsSection(name.text) {
          structural := structural + [name.text];
        }
      }
      assert sections.items[..|sections.items|] == sections.items;
    }
    var titles := BoundedItems(Field(skeleton, "sample_titles"));
    var h1s := BoundedItems(Field(skeleton, "sample_h1"));
    var faqs := BoundedItems(Field(skeleton, "sample_faq"));
    row := Row(scanId, Whole(if urls.List? then CountStrings(urls.items) else 0), titles, h1s, faqs,
               FirstEight(Unique(structural)));
  }

  /** `evidence_provider_rows`. */
  function ProviderRow(content: Json): Row {
    var signals := Field(content, "signals");
    var sections := Field(signals, "structural_sections");
    var count := Field(content, "source_url_count");
    Row(BoundedText(Field(content, "source_scan_id"), ID_LIMIT).GetOr(""), if IsInt(count) then count else Whole(0),
        Bounded(Field(signals, "sample_titles")), Bounded(Field(signals, "sample_h1")),
        Bounded(Field(signals, "sample_faq")),
        if sections.List? then FirstEight(Labels(sections.items, Itself)) else [])
  }

  /** Where the shown columns come from. */
  lemma {:induction false} ShownColumns(fields: map<string, Json>, signals: Json)
    requires "signals" in fields && fields["signals"] == signals
    ensures var row := ProviderRow(Object(fields));
            && row.titles == TextsUnder(signals, "sample_titles") && row.h1s == TextsUnder(signals, "sample_h1")
            && row.faqs == TextsUnder(signals, "sample_faq")
            && row.urlCount == (if "source_url_count" in fields && IsInt(fields["source_url_count"])
                                then fields["source_url_count"] else Whole(0))
  {
  }

  lemma {:induction false} LabelsOfTexts(labels: seq<string>)
    requires forall l :: l in labels ==> IsSection(l)
    ensures Labels(Texts(labels), Itself) == labels
    decreases |labels|
  {
    if |labels| > 0 {
      var n := |labels| - 1;
      assert Texts(labels)[..n] == Texts(labels[..n]);
      assert labels[n] in labels && labels == labels[..n] + [labels[n]];
      LabelsOfTexts(labels[..n]);
    }
  }

  lemma {:induction false} UniqueKeepsEach(labels: seq<string>)
    ensures Distinct(Unique(labels)) && forall l :: l in labels <==> l in Unique(labels)
    decreases |labels|
  {
    if |labels| > 0 {
      var n := |labels| - 1;
      UniqueKeepsEach(labels[..n]);
      assert labels == labels[..n] + [labels[n]];
    }
  }

  lemma {:induction false} DistinctFits(labels: seq<string>, names: set<string>)
    requires Distinct(labels) && forall l :: l in labels ==> l in names
    ensures |labels| <= |names|
    decreases |labels|
  {
    if |labels| > 0 {
      var n := |labels| - 1;
      var last := labels[n];
      forall l | l in labels[..n] ensures l in names - {last} {
        assert l in labels;
      }
      assert last in labels;
      DistinctFits(labels[..n], names - {last});
    }
  }

  /** The item is an object with the label under `type`. */
  ghost predicate Labelled(item: Json, name: string) {
    item.Object? && "type" in item.fields && item.fields["type"] == Str(name)
  }

  lemma {:induction false} LabelsAre(items: seq<Json>, name: string)
    ensures name in Labels(items, TypeOf)
       <==> name in {"hero", "services", "pricing", "faq", "contacts"}
            && exists i :: 0 <= i < |items| && Labelled(items[i], name)
    decreases |items|
  {
    if |items| > 0 {
      var n := |items| - 1;
      LabelsAre(items[..n], name);
      assert forall i :: 0 <= i < n ==> items[..n][i] == items[i];
      assert TypeOf(items[n]) == Str(name) <==> Labelled(items[n], name);
    }
  }

  /** The limit of eight never cuts: an approved row names every known section of the skeleton once. */
  lemma {:induction false} ApprovedSectionsComplete(scanId: string, urls: Json, skeleton: Json, name: string)
    requires Field(skeleton, "sections").List?
    ensures var labels := Approved(scanId, urls, skeleton).sections;
            var items := Field(skeleton, "sections").items;
            && Distinct(labels)
            && (name in labels <==> name in {"hero", "services", "pricing", "faq", "contacts"}
                                    && exists i :: 0 <= i < |items| && Labelled(items[i], name))
  {
    var labels := Labels(Field(skeleton, "sections").items, TypeOf);
    UniqueKeepsEach(labels);
    DistinctFits(Unique(labels), {"hero", "services", "pricing", "faq", "contacts"});
    LabelsAre(Field(skeleton, "sections").items, name);
  }

  /** The first occurrences stand in the order of the labels. */
  lemma {:induction false} UniqueInOrder(labels: seq<string>) returns (at: seq<nat>)
    ensures InOrder(labels, Unique(labels), at)
    decreases |labels|
  {
    at := [];
    if |labels| > 0 {
      var before := UniqueInOrder(labels[..|labels| - 1]);
      at := InOrderNext(labels, |labels| - 1, Unique(labels[..|labels| - 1]), before);
    }
  }

  /** `some` are labels at increasing positions. */
  ghost predicate InOrder(labels: seq<string>, some: seq<string>, at: seq<nat>) {
    && |at| == |some| && (forall i, j :: 0 <= i < j < |at| ==> at[i] < at[j])
    && forall i :: 0 <= i < |at| ==> at[i] < |labels| && labels[at[i]] == some[i]
  }

  lemma {:induction false} InOrderNext(labels: seq<string>, n: nat, some: seq<string>, at: seq<nat>)
    returns (at': seq<nat>)
    requires n < |labels| && InOrder(labels[..n], some, at)
    ensures InOrder(labels, if labels[n] in some then some else some + [labels[n]], at')
  {
    assert forall i :: 0 <= i < |at| ==> at[i] < n && labels[..n][at[i]] == labels[at[i]];
    at' := if labels[n] in some then at else at + [n];
  }

  /** At most eight known labels. */
  ghost predicate SectionsOk(labels: seq<string>) {
    |labels| <= MAX_SECTIONS && forall l :: l in labels ==> IsSection(l)
  }

  lemma {:induction false} ProjectedSections(row: Row)
    requires SectionsOk(row.sections)
    ensures ProviderRow(AsJson(row)).sections == row.sections
  {
    LabelsOfTexts(row.sections);
  }

  lemma {:induction false} ProviderSectionsOk(content: Json)
    ensures SectionsOk(ProviderRow(content).sections)
  {
  }

  lemma {:induction false} ApprovedSectionsOk(scanId: string, urls: Json, skeleton: Json)
    ensures SectionsOk(Approved(scanId, urls, skeleton).sections)
  {
  }

  /** What projecting a row reads from it. */
  lemma {:induction false} ProjectedFields(row: Row)
    ensures var next := ProviderRow(AsJson(row));
            && next.scanId == BoundedText(Str(row.scanId), ID_LIMIT).GetOr("")
            && next.urlCount == (if IsInt(row.urlCount) then row.urlCount else Whole(0))
            && next.titles == Bounded(List(Texts(row.titles)))
            && next.h1s == Bounded(List(Texts(row.h1s)))
            && next.faqs == Bounded(List(Texts(row.faqs)))
  {
  }

  /** A projected scan id is projected to itself exactly when it does not end in a space. */
  lemma {:induction false} ScanIdSettledIff(value: Json)
    ensures var id := BoundedText(value, ID_LIMIT).GetOr("");
            BoundedText(Str(id), ID_LIMIT).GetOr("") == id <==> !EndsInSpace(id)
  {
    var bounded := BoundedText(value, ID_LIMIT);
    if bounded.Some? {
      BoundedTextShape(value, ID_LIMIT);
      BoundedAgain(bounded.value, ID_LIMIT);
    } else {
      assert Normalize("") == "";
    }
  }

  ghost predicate NoneEndsInSpace(texts: seq<string>) {
    forall t :: t in texts ==> !EndsInSpace(t)
  }

  /** Projecting a projected row changes it exactly when one of its texts ends in a space. */
  lemma {:induction false} ProjectionSettledIff(content: Json)
    ensures var row := ProviderRow(content);
            ProviderRow(AsJson(row)) == row
            <==> NoneEndsInSpace(row.titles) && NoneEndsInSpace(row.h1s) && NoneEndsInSpace(row.faqs)
                 && !EndsInSpace(row.scanId)
  {
    var row := ProviderRow(content);
    var signals := Field(content, "signals");
    ProjectedFields(row);
    ProviderSectionsOk(content);
    ProjectedSections(row);
    ItemsSettledIff(Field(signals, "sample_titles"));
    ItemsSettledIff(Field(signals, "sample_h1"));
    ItemsSettledIff(Field(signals, "sample_faq"));
    ScanIdSettledIff(Field(content, "source_scan_id"));
  }

  lemma {:induction false} NormalEndsOk(texts: seq<string>)
    requires AllNormal(texts)
    ensures NoneEndsInSpace(texts)
  {
  }

  /** An identifier of 36 characters without whitespace, as `str` of a UUID is. */
  ghost predicate IsScanId(id: string) {
    |id| == ID_LIMIT && forall i :: 0 <= i < |id| ==> !Text.IsSpace(id[i])
  }

  lemma {:induction false} ScanIdKept(id: string)
    requires IsScanId(id)
    ensures BoundedText(Str(id), ID_LIMIT) == Some(id)
  {
    NormalizeIffNormal(id);
    assert id[..ID_LIMIT] == id;
  }

  /**
   What the provider is shown of an approved scan is a fixed point of the projection: it is
   bounded twice, once on approval and once on the way out. The scan id, the count and the
   sections arrive as approved.
   */
  lemma {:induction false} ApprovedEvidenceIsFixed(scanId: string, urls: Json, skeleton: Json)
    requires IsScanId(scanId)
    ensures var approved := Approved(scanId, urls, skeleton);
            var shown := ProviderRow(AsJson(approved));
            && ProviderRow(AsJson(shown)) == shown
            && shown.scanId == scanId && shown.urlCount == approved.urlCount && shown.sections == approved.sections
  {
    var approved := Approved(scanId, urls, skeleton);
    var shown := ProviderRow(AsJson(approved));
    ProjectedFields(approved);
    ApprovedSectionsOk(scanId, urls, skeleton);
    ProjectedSections(approved);
    ScanIdKept(scanId);
    ItemsSettleInTwo(Field(skeleton, "sample_titles"));
    ItemsSettleInTwo(Field(skeleton, "sample_h1"));
    ItemsSettleInTwo(Field(skeleton, "sample_faq"));
    NormalEndsOk(shown.titles);
    NormalEndsOk(shown.h1s);
    NormalEndsOk(shown.faqs);
    ProjectionSettledIff(AsJson(approved));
  }
}
