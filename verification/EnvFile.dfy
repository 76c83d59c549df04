/**
 The dotenv reader and the in-place merge of the installer.

 `ParseEnv` reads `KEY=value` lines wherever they are indented; the merge only rewrites
 lines where an identifier and `=` start at column one. The results below say when the two
 agree, that merging is idempotent, and that preparing a production file twice gives the
 same file.
 */
module EnvFile {
  import opened Wrappers
  import Text

  type Lines = seq<string>
  type Env = map<string, string>
  type Updates = seq<(string, string)>

  // ---------- lines ----------

  /** What `str.splitlines` breaks at. */
  predicate IsBreak(c: char) {
    var n := c as int;
    10 <= n <= 13 || 28 <= n <= 30 || n == 0x85 || n == 0x2028 || n == 0x2029
  }

  predicate OneLine(s: string) {
    forall i :: 0 <= i < |s| ==> !IsBreak(s[i])
  }

  predicate AllOneLine(lines: Lines) {
    forall i :: 0 <= i < |lines| ==> OneLine(lines[i])
  }

  /** Splitting `text`, with `current` already read of the line it starts in. */
  function SplitFrom(current: string, text: string): Lines
    decreases |text|
  {
    if |text| == 0 then (if current == "" then [] else [current])
    else if !IsBreak(text[0]) then SplitFrom(current + [text[0]], text[1..])
    else if text[0] == '\r' && |text| > 1 && text[1] == '\n' then [current] + SplitFrom("", text[2..])
    else [current] + SplitFrom("", text[1..])
  }

  function SplitLines(text: string): Lines {
    SplitFrom("", text)
  }

  /** The lines joined by newlines, with a final newline unless there are none. */
  function Unlines(lines: Lines): string {
    if |lines| == 0 then "" else lines[0] + "\n" + Unlines(lines[1..])
  }

  lemma {:induction false} SplitLine(current: string, line: string, rest: string)
    requires OneLine(line)
    ensures SplitFrom(current, line + "\n" + rest) == [current + line] + SplitFrom("", rest)
    decreases |line|
  {
    var text := line + "\n" + rest;
    if |line| == 0 {
      assert text[0] == '\n' && text[1..] == rest;
      assert current + line == current;
    } else {
      assert text[0] == line[0] && text[1..] == line[1..] + "\n" + rest;
      SplitLine(current + [line[0]], line[1..], rest);
      assert current + [line[0]] + line[1..] == current + line;
    }
  }

  /** Writing one-line lines and splitting them again gives the lines. */
  lemma {:induction false} SplitUnlines(lines: Lines)
    requires AllOneLine(lines)
    ensures SplitLines(Unlines(lines)) == lines
    decreases |lines|
  {
    if |lines| != 0 {
      SplitUnlines(lines[1..]);
      SplitLine("", lines[0], Unlines(lines[1..]));
      assert "" + lines[0] == lines[0];
      assert lines == [lines[0]] + lines[1..];
    }
  }

  lemma {:induction false} SplitFromOneLine(current: string, text: string)
    requires OneLine(current)
    ensures AllOneLine(SplitFrom(current, text))
    decreases |text|
  {
    if |text| != 0 {
      if !IsBreak(text[0]) {
        SplitFromOneLine(current + [text[0]], text[1..]);
      } else if text[0] == '\r' && |text| > 1 && text[1] == '\n' {
        SplitFromOneLine("", text[2..]);
      } else {
        SplitFromOneLine("", text[1..]);
      }
    }
  }

  // ---------- one line ----------

  /** Where `c` first occurs in `s`, or the length of `s`. */
  function IndexOf(s: string, c: char): (n: nat)
    ensures n <= |s| && (n < |s| ==> s[n] == c)
    ensures forall i :: 0 <= i < n ==> s[i] != c
  {
    if |s| == 0 || s[0] == c then 0 else 1 + IndexOf(s[1..], c)
  }

  predicate IsIdStart(c: char) {
    'A' <= c <= 'Z' || 'a' <= c <= 'z' || c == '_'
  }

  predicate IsIdChar(c: char) {
    IsIdStart(c) || '0' <= c <= '9'
  }

  predicate IsIdentifier(s: string) {
    |s| > 0 && IsIdStart(s[0]) && forall i :: 0 <= i < |s| ==> IsIdChar(s[i])
  }

  /** The key and value `parse_env` reads from a line. */
  function ParseLine(line: string): Option<(string, string)> {
    var s := Text.Strip(line);
    var n := IndexOf(s, '=');
    if |s| == 0 || s[0] == '#' || n == |s| then None
    else Some((Text.Strip(s[..n]), Text.Strip(s[n + 1..])))
  }

  /** The first `=` of `s` is at `n`, and the entry is what stands before and after it, stripped. */
  ghost predicate SplitsAt(s: string, n: nat, entry: (string, string)) {
    && n < |s| && s[n] == '=' && '=' !in s[..n]
    && entry == (Text.Strip(s[..n]), Text.Strip(s[n + 1..]))
  }

  /** The key of a line that starts with an identifier and `=`. */
  function ColumnOneKey(line: string): (key: Option<string>)
    ensures key.Some? ==> IsIdentifier(key.value)
  {
    var n := IndexOf(line, '=');
    if n < |line| && IsIdentifier(line[..n]) then Some(line[..n]) else None
  }

  function Assignment(key: string, value: string): string {
    key + "=" + value
  }

  lemma {:induction false} IndexIs(s: string, c: char, n: nat)
    requires n < |s| && s[n] == c && forall i :: 0 <= i < n ==> s[i] != c
    ensures IndexOf(s, c) == n
  {
  }

  lemma {:induction false} StripRightKeeps(s: string, n: nat)
    requires n < |s| && !Text.IsSpace(s[n])
    ensures n < |Text.StripRight(s)| && Text.StripRight(s) <= s
    decreases |s|
  {
    if Text.IsSpace(s[|s| - 1]) {
      StripRightKeeps(s[..|s| - 1], n);
    }
  }

  /** What the merge recognises, the reader reads, under the same key. */
  lemma {:induction false} ColumnOneIsParsed(line: string)
    requires ColumnOneKey(line).Some?
    ensures ParseLine(line).Some? && ParseLine(line).value.0 == ColumnOneKey(line).value
  {
    var n := IndexOf(line, '=');
    StripRightKeeps(line, n);
    var s := Text.Strip(line);
    assert Text.StripLeft(line) == line;
    assert s[n] == '=' && s[..n] == line[..n];
    IndexIs(s, '=', n);
    Text.StrippedIsFixed(line[..n]);
  }

  lemma {:induction false} AssignmentKey(key: string, value: string)
    requires IsIdentifier(key)
    ensures ColumnOneKey(Assignment(key, value)) == Some(key)
  {
    var line := Assignment(key, value);
    assert line[|key|] == '=' && forall i :: 0 <= i < |key| ==> line[i] == key[i];
    IndexIs(line, '=', |key|);
    assert line[..|key|] == key;
  }

  /** A written assignment reads back as written. */
  lemma {:induction false} AssignmentParses(key: string, value: string)
    requires IsIdentifier(key) && Text.Stripped(value)
    ensures ParseLine(Assignment(key, value)) == Some((key, value))
  {
    var line := Assignment(key, value);
    var n := |key|;
    assert line[n] == '=' && forall i :: 0 <= i < n ==> line[i] == key[i];
    IndexIs(line, '=', n);
    assert line[..n] == key && line[n + 1..] == value;
    assert |value| > 0 ==> line[|line| - 1] == value[|value| - 1];
    Text.StrippedIsFixed(line);
    Text.StrippedIsFixed(key);
    Text.StrippedIsFixed(value);
  }

  // ---------- the whole file ----------

  /** The first `n` lines read; later assignments win. */
  function ParseUpTo(lines: Lines, n: nat): Env
    requires n <= |lines|
  {
    if n == 0 then map[]
    else
      var env := ParseUpTo(lines, n - 1);
      match ParseLine(lines[n - 1])
      case None => env
      case Some((key, value)) => env[key := value]
  }

  function ParseEnv(lines: Lines): Env {
    ParseUpTo(lines, |lines|)
  }

  function Get(env: Env, key: string): Option<string> {
    if key in env then Some(env[key]) else None
  }

  predicate Has(updates: Updates, key: string) {
    exists i :: 0 <= i < |updates| && updates[i].0 == key
  }

  function ValueUpTo(updates: Updates, key: string, n: nat): string
    requires n <= |updates|
  {
    if n == 0 then "" else if updates[n - 1].0 == key then updates[n - 1].1 else ValueUpTo(updates, key, n - 1)
  }

  function ValueOf(updates: Updates, key: string): string {
    ValueUpTo(updates, key, |updates|)
  }

  /** The updates of one call: distinct identifiers with one-line values. */
  ghost predicate UpdatesOk(updates: Updates) {
    && (forall i :: 0 <= i < |updates| ==> IsIdentifier(updates[i].0) && OneLine(updates[i].1))
    && (forall i, j :: 0 <= i < j < |updates| ==> updates[i].0 != updates[j].0)
  }

  /** A column-one line of an updated key is replaced, any other line kept. */
  function RewriteLine(updates: Updates, line: string): string {
    var key := ColumnOneKey(line);
    if key.Some? && Has(updates, key.value) then Assignment(key.value, ValueOf(updates, key.value)) else line
  }

  function RewriteAll(updates: Updates, lines: Lines): (after: Lines)
    ensures |after| == |lines| && forall i :: 0 <= i < |lines| ==> after[i] == RewriteLine(updates, lines[i])
  {
    seq(|lines|, i requires 0 <= i < |lines| => RewriteLine(updates, lines[i]))
  }

  /** Some column-one line assigns `key`. */
  predicate Seen(lines: Lines, key: string) {
    SeenUpTo(lines, key, |lines|)
  }

  predicate SeenUpTo(lines: Lines, key: string, n: nat)
    requires n <= |lines|
  {
    exists i :: 0 <= i < n && ColumnOneKey(lines[i]) == Some(key)
  }

  /** Assignments for those of the first `n` updates that are not seen, in order. */
  function MissingUpTo(updates: Updates, lines: Lines, n: nat): Lines
    requires n <= |updates|
  {
    if n == 0 then []
    else
      var before := MissingUpTo(updates, lines, n - 1);
      var (key, value) := updates[n - 1];
      if Seen(lines, key) then before else before + [Assignment(key, value)]
  }

  function Missing(updates: Updates, lines: Lines): Lines {
    MissingUpTo(updates, lines, |updates|)
  }

  function Merge(updates: Updates, lines: Lines): Lines {
    RewriteAll(updates, lines) + Missing(updates, lines)
  }

  // ---------- what a merge does to the reader's view ----------

  /** The position of the last of the first `n` lines that `p` holds of, or -1. */
  function LastWhere(lines: Lines, p: string -> bool, n: nat): (i: int)
    requires n <= |lines|
    ensures -1 <= i < n
  {
    if n == 0 then -1 else if p(lines[n - 1]) then n - 1 else LastWhere(lines, p, n - 1)
  }

  lemma {:induction false} LastWhereHolds(lines: Lines, p: string -> bool, n: nat)
    requires n <= |lines|
    ensures LastWhere(lines, p, n) >= 0 ==> p(lines[LastWhere(lines, p, n)])
    ensures forall i :: 0 <= i < n && p(lines[i]) ==> LastWhere(lines, p, n) >= i
  {
    if n > 0 {
      LastWhereHolds(lines, p, n - 1);
    }
  }

  lemma {:induction false} LastWhereSame(a: Lines, b: Lines, p: string -> bool, n: nat)
    requires n <= |a| && n <= |b| && forall i :: 0 <= i < n ==> p(a[i]) == p(b[i])
    ensures LastWhere(a, p, n) == LastWhere(b, p, n)
  {
    if n > 0 {
      LastWhereSame(a, b, p, n - 1);
    }
  }

  lemma {:induction false} LastWhereOnward(a: Lines, b: Lines, p: string -> bool, n: nat)
    requires n <= |b|
    ensures var j := LastWhere(b, p, n);
            LastWhere(a + b, p, |a| + n) == if j >= 0 then |a| + j else LastWhere(a, p, |a|)
  {
    if n == 0 {
      LastWhereSame(a + b, a, p, |a|);
    } else {
      LastWhereOnward(a, b, p, n - 1);
      assert (a + b)[|a| + n - 1] == b[n - 1];
    }
  }

  /** The reader takes a value for `key` from this line. */
  predicate Reads(line: string, key: string) {
    ParseLine(line).Some? && ParseLine(line).value.0 == key
  }

  function Reader(key: string): string -> bool {
    line => Reads(line, key)
  }

  /** The last line read under `key`. */
  function LastLine(lines: Lines, key: string): Option<string> {
    LineAt(lines, LastWhere(lines, Reader(key), |lines|))
  }

  function LineAt(lines: Lines, i: int): Option<string>
    requires i < |lines|
  {
    if i >= 0 then Some(lines[i]) else None
  }

  lemma {:induction false} LastLineReads(lines: Lines, key: string)
    ensures LastLine(lines, key).Some? ==> Reads(LastLine(lines, key).value, key)
    ensures forall i :: 0 <= i < |lines| && Reader(key)(lines[i]) ==> LastLine(lines, key).Some?
  {
    LastWhereHolds(lines, Reader(key), |lines|);
  }

  /** A key with a column-one line is read. */
  lemma {:induction false} SeenIsRead(lines: Lines, key: string)
    requires Seen(lines, key)
    ensures LastLine(lines, key).Some?
  {
    var j :| 0 <= j < |lines| && ColumnOneKey(lines[j]) == Some(key);
    ColumnOneIsParsed(lines[j]);
    assert Reader(key)(lines[j]);
    LastLineReads(lines, key);
  }

  /** The value a line is read with, if it is read. */
  function ValueRead(line: string): string {
    match ParseLine(line) case None => "" case Some((_, value)) => value
  }

  lemma {:induction false} ParseDecides(lines: Lines, key: string, n: nat)
    requires n <= |lines|
    ensures var i := LastWhere(lines, Reader(key), n);
            Get(ParseUpTo(lines, n), key) == if i >= 0 then Some(ValueRead(lines[i])) else None
  {
    if n > 0 {
      ParseDecides(lines, key, n - 1);
    }
  }

  lemma {:induction false} LastLineDecides(lines: Lines, key: string)
    ensures Get(ParseEnv(lines), key)
         == match LastLine(lines, key) case None => None case Some(line) => Some(ValueRead(line))
  {
    ParseDecides(lines, key, |lines|);
  }

  lemma {:induction false} LastLineOfAppend(a: Lines, b: Lines, key: string)
    ensures LastLine(a + b, key) == if LastLine(b, key).Some? then LastLine(b, key) else LastLine(a, key)
  {
    LastWhereOnward(a, b, Reader(key), |b|);
    LineOfAppend(a, b, LastWhere(b, Reader(key), |b|), LastWhere(a, Reader(key), |a|));
  }

  lemma {:induction false} LineOfAppend(a: Lines, b: Lines, i: int, j: int)
    requires -1 <= i < |b| && -1 <= j < |a|
    ensures LineAt(a + b, if i >= 0 then |a| + i else j) == if i >= 0 then LineAt(b, i) else LineAt(a, j)
  {
  }

  /** A rewritten line is read under the key it was read under before. */
  lemma {:induction false} RewriteKeepsKey(updates: Updates, line: string, key: string)
    ensures Reads(RewriteLine(updates, line), key) == Reads(line, key)
  {
    var own := ColumnOneKey(line);
    if own.Some? && Has(updates, own.value) {
      ColumnOneIsParsed(line);
      AssignmentKey(own.value, ValueOf(updates, own.value));
      ColumnOneIsParsed(RewriteLine(updates, line));
    }
  }

  lemma {:induction false} LastLineOfRewrite(updates: Updates, lines: Lines, key: string)
    ensures LastLine(RewriteAll(updates, lines), key)
         == match LastLine(lines, key) case None => None case Some(line) => Some(RewriteLine(updates, line))
  {
    var after := RewriteAll(updates, lines);
    forall i | 0 <= i < |lines| ensures Reader(key)(lines[i]) == Reader(key)(after[i]) {
      RewriteKeepsKey(updates, lines[i], key);
    }
    LastWhereSame(lines, after, Reader(key), |lines|);
  }

  lemma {:induction false} ValueAt(updates: Updates, i: nat, n: nat)
    requires UpdatesOk(updates) && i < n <= |updates|
    ensures ValueUpTo(updates, updates[i].0, n) == updates[i].1
    decreases n
  {
    if i < n - 1 {
      assert updates[i].0 != updates[n - 1].0;
      ValueAt(updates, i, n - 1);
    }
  }

  lemma {:induction false} AssignmentReads(k: string, value: string, key: string)
    requires IsIdentifier(k)
    ensures Reader(key)(Assignment(k, value)) <==> k == key
  {
    AssignmentKey(k, value);
    ColumnOneIsParsed(Assignment(k, value));
  }

  lemma {:induction false} LastLineOfAssignment(lines: Lines, k: string, value: string, key: string)
    requires IsIdentifier(k)
    ensures LastLine(lines + [Assignment(k, value)], key)
         == if k == key then Some(Assignment(k, value)) else LastLine(lines, key)
  {
    AssignmentReads(k, value, key);
    LastLineOfAppend(lines, [Assignment(k, value)], key);
  }

  lemma {:induction false} HasPrefix(updates: Updates, key: string)
    requires |updates| > 0
    ensures var n := |updates| - 1; Has(updates, key) <==> Has(updates[..n], key) || updates[n].0 == key
  {
    var n := |updates| - 1;
    if Has(updates, key) && updates[n].0 != key {
      var i :| 0 <= i < |updates| && updates[i].0 == key;
      assert updates[..n][i].0 == key;
    }
  }

  /** No appended line assigns a key that is seen, or that is not updated. */
  lemma {:induction false} NotAppended(updates: Updates, lines: Lines, key: string, n: nat)
    requires UpdatesOk(updates) && n <= |updates|
    requires Seen(lines, key) || forall i :: 0 <= i < n ==> updates[i].0 != key
    ensures LastLine(MissingUpTo(updates, lines, n), key) == None
  {
    if n > 0 {
      NotAppended(updates, lines, key, n - 1);
      LastLineOfAssignment(MissingUpTo(updates, lines, n - 1), updates[n - 1].0, updates[n - 1].1, key);
    }
  }

  /** An update not seen is appended. */
  lemma {:induction false} AppendedOnce(updates: Updates, lines: Lines, i: nat, n: nat)
    requires UpdatesOk(updates) && i < n <= |updates| && !Seen(lines, updates[i].0)
    ensures LastLine(MissingUpTo(updates, lines, n), updates[i].0) == Some(Assignment(updates[i].0, updates[i].1))
    decreases n
  {
    if i < n - 1 {
      AppendedOnce(updates, lines, i, n - 1);
      assert updates[i].0 != updates[n - 1].0;
    }
    LastLineOfAssignment(MissingUpTo(updates, lines, n - 1), updates[n - 1].0, updates[n - 1].1, updates[i].0);
  }

  /** The appended lines assign exactly the updates not seen. */
  lemma {:induction false} LastLineOfMissing(updates: Updates, lines: Lines, key: string)
    requires UpdatesOk(updates)
    ensures LastLine(Missing(updates, lines), key)
         == if Has(updates, key) && !Seen(lines, key) then Some(Assignment(key, ValueOf(updates, key))) else None
  {
    if Has(updates, key) && !Seen(lines, key) {
      var i :| 0 <= i < |updates| && updates[i].0 == key;
      AppendedOnce(updates, lines, i, |updates|);
      ValueAt(updates, i, |updates|);
    } else {
      NotAppended(updates, lines, key, |updates|);
    }
  }

  /** Which line decides a key after a merge. */
  lemma {:induction false} LastLineOfMerge(updates: Updates, lines: Lines, key: string)
    requires UpdatesOk(updates)
    ensures LastLine(Merge(updates, lines), key)
         == if Has(updates, key) && !Seen(lines, key) then Some(Assignment(key, ValueOf(updates, key)))
            else match LastLine(lines, key) case None => None case Some(line) => Some(RewriteLine(updates, line))
  {
    LastLineOfAppend(RewriteAll(updates, lines), Missing(updates, lines), key);
    LastLineOfRewrite(updates, lines, key);
    LastLineOfMissing(updates, lines, key);
  }

  /** Keys that are not updated keep their value. */
  lemma {:induction false} OtherKeysKept(updates: Updates, lines: Lines, key: string)
    requires UpdatesOk(updates) && !Has(updates, key)
    ensures Get(ParseEnv(Merge(updates, lines)), key) == Get(ParseEnv(lines), key)
  {
    LastLineOfMerge(updates, lines, key);
    LastLineDecides(lines, key);
    LastLineDecides(Merge(updates, lines), key);
    LastLineReads(lines, key);
    var last := LastLine(lines, key);
    if last.Some? && ColumnOneKey(last.value).Some? {
      ColumnOneIsParsed(last.value);
    }
  }

  /**
   An updated key parses back to its new value exactly when the merge appends it, or the
   last line read under it starts at column one, or that line already carried the value.
   */
  lemma {:induction false} ParsesBackIff(updates: Updates, lines: Lines, key: string)
    requires UpdatesOk(updates) && Has(updates, key) && Text.Stripped(ValueOf(updates, key))
    ensures Get(ParseEnv(Merge(updates, lines)), key) == Some(ValueOf(updates, key))
       <==> !Seen(lines, key)
            || (LastLine(lines, key).Some? && ColumnOneKey(LastLine(lines, key).value).Some?)
            || Get(ParseEnv(lines), key) == Some(ValueOf(updates, key))
  {
    var value := ValueOf(updates, key);
    var merged := Merge(updates, lines);
    var i :| 0 <= i < |updates| && updates[i].0 == key;
    AssignmentParses(key, value);
    LastLineOfMerge(updates, lines, key);
    LastLineDecides(lines, key);
    LastLineDecides(merged, key);
    LastLineReads(lines, key);
    if Seen(lines, key) {
      SeenIsRead(lines, key);
      var last := LastLine(lines, key).value;
      if ColumnOneKey(last).Some? {
        ColumnOneIsParsed(last);
      }
    }
  }

  lemma {:induction false} IndentedLineParses()
    ensures ParseLine(" A=2") == Some(("A", "2")) && ColumnOneKey(" A=2") == None
  {
    assert Text.Strip(" A=2") == "A=2" by {
      assert " A=2"[1..] == "A=2";
      Text.StrippedIsFixed("A=2");
    }
    IndexIs("A=2", '=', 1);
    IndexIs(" A=2", '=', 2);
    assert "A=2"[..1] == "A" && "A=2"[2..] == "2";
    Text.StrippedIsFixed("A");
    Text.StrippedIsFixed("2");
  }

  lemma {:induction false} IndentedLineIsLast()
    ensures LastLine(["A=1", " A=2"], "A") == Some(" A=2") && Seen(["A=1", " A=2"], "A")
  {
    var lines := ["A=1", " A=2"];
    IndentedLineParses();
    AssignmentKey("A", "1");
    assert Assignment("A", "1") == lines[0];
    assert Seen(lines, "A");
  }

  lemma {:induction false} OneUpdate(key: string, value: string)
    requires IsIdentifier(key) && OneLine(value)
    ensures UpdatesOk([(key, value)]) && Has([(key, value)], key) && ValueOf([(key, value)], key) == value
  {
    assert [(key, value)][0].0 == key;
  }

  /** An indented old assignment after a column-one line wins over the merged value. */
  lemma {:induction false} IndentedLineShadowsMerge()
    ensures var lines := ["A=1", " A=2"];
            Get(ParseEnv(Merge([("A", "3")], lines)), "A") != Some("3")
  {
    var lines, updates := ["A=1", " A=2"], [("A", "3")];
    OneUpdate("A", "3");
    IndentedLineIsLast();
    IndentedLineParses();
    LastLineDecides(lines, "A");
    ParsesBackIff(updates, lines, "A");
  }

  // ---------- merging settles ----------

  /** Every updated key has a column-one line, and all its column-one lines carry the new value. */
  ghost predicate Settled(updates: Updates, lines: Lines) {
    && (forall i :: 0 <= i < |updates| ==> Seen(lines, updates[i].0))
    && (forall j :: 0 <= j < |lines| ==> RewriteLine(updates, lines[j]) == lines[j])
  }

  lemma {:induction false} NothingMissing(updates: Updates, lines: Lines, n: nat)
    requires n <= |updates| && forall i :: 0 <= i < n ==> Seen(lines, updates[i].0)
    ensures MissingUpTo(updates, lines, n) == []
  {
    if n > 0 {
      NothingMissing(updates, lines, n - 1);
    }
  }

  /** Merging into settled lines changes nothing. */
  lemma {:induction false} SettledIsFixed(updates: Updates, lines: Lines)
    requires Settled(updates, lines)
    ensures Merge(updates, lines) == lines
  {
    NothingMissing(updates, lines, |updates|);
    assert RewriteAll(updates, lines) == lines;
  }

  /** Which lines a merge appends. */
  lemma {:induction false} MissingLine(updates: Updates, lines: Lines, j: nat) returns (i: nat)
    requires j < |Missing(updates, lines)|
    ensures i < |updates| && !Seen(lines, updates[i].0)
    ensures Missing(updates, lines)[j] == Assignment(updates[i].0, updates[i].1)
  {
    i := MissingLineUpTo(updates, lines, |updates|, j);
  }

  lemma {:induction false} MissingLineUpTo(updates: Updates, lines: Lines, n: nat, j: nat) returns (i: nat)
    requires n <= |updates| && j < |MissingUpTo(updates, lines, n)|
    ensures i < n && !Seen(lines, updates[i].0)
    ensures MissingUpTo(updates, lines, n)[j] == Assignment(updates[i].0, updates[i].1)
    decreases n
  {
    if j < |MissingUpTo(updates, lines, n - 1)| {
      i := MissingLineUpTo(updates, lines, n - 1, j);
    } else {
      i := n - 1;
    }
  }

  lemma {:induction false} MissingSeen(updates: Updates, lines: Lines, i: nat, n: nat)
    requires i < n <= |updates| && IsIdentifier(updates[i].0) && !Seen(lines, updates[i].0)
    ensures Seen(MissingUpTo(updates, lines, n), updates[i].0)
    decreases n
  {
    var all, before := MissingUpTo(updates, lines, n), MissingUpTo(updates, lines, n - 1);
    if i == n - 1 {
      AssignmentKey(updates[i].0, updates[i].1);
      assert ColumnOneKey(all[|before|]) == Some(updates[i].0);
    } else {
      MissingSeen(updates, lines, i, n - 1);
      var j :| 0 <= j < |before| && ColumnOneKey(before[j]) == Some(updates[i].0);
      assert all[j] == before[j];
    }
  }

  /** Rewriting does not change which keys have a column-one line. */
  lemma {:induction false} RewriteKeepsColumn(updates: Updates, line: string)
    ensures ColumnOneKey(RewriteLine(updates, line)) == ColumnOneKey(line)
  {
    var key := ColumnOneKey(line);
    if key.Some? {
      AssignmentKey(key.value, ValueOf(updates, key.value));
    }
  }

  lemma {:induction false} SeenStays(updates: Updates, lines: Lines, key: string)
    requires Seen(lines, key)
    ensures Seen(Merge(updates, lines), key)
  {
    var j :| 0 <= j < |lines| && ColumnOneKey(lines[j]) == Some(key);
    RewriteKeepsColumn(updates, lines[j]);
    assert ColumnOneKey(Merge(updates, lines)[j]) == Some(key);
  }

  lemma {:induction false} UpdatedIsSeen(updates: Updates, lines: Lines, key: string)
    requires UpdatesOk(updates) && Has(updates, key)
    ensures Seen(Merge(updates, lines), key)
  {
    if Seen(lines, key) {
      SeenStays(updates, lines, key);
    } else {
      var i :| 0 <= i < |updates| && updates[i].0 == key;
      MissingSeen(updates, lines, i, |updates|);
      var j :| 0 <= j < |Missing(updates, lines)| && ColumnOneKey(Missing(updates, lines)[j]) == Some(key);
      assert ColumnOneKey(Merge(updates, lines)[|lines| + j]) == Some(key);
    }
  }

  /** Two updates that give common keys the same value. */
  ghost predicate Agree(first: Updates, second: Updates) {
    forall key :: Has(first, key) && Has(second, key) ==> ValueOf(first, key) == ValueOf(second, key)
  }

  /** Rewriting twice with values that do not disagree is rewriting once. */
  lemma {:induction false} RewriteTwice(first: Updates, second: Updates, line: string)
    requires Agree(first, second) && RewriteLine(first, line) == line
    ensures RewriteLine(first, RewriteLine(second, line)) == RewriteLine(second, line)
  {
    var key := ColumnOneKey(line);
    if key.Some? {
      AssignmentKey(key.value, ValueOf(second, key.value));
    }
  }

  lemma {:induction false} AppendedAgrees(first: Updates, second: Updates, i: nat)
    requires UpdatesOk(second) && Agree(first, second) && i < |second|
    ensures var line := Assignment(second[i].0, second[i].1); RewriteLine(first, line) == line
  {
    AssignmentKey(second[i].0, second[i].1);
    ValueAt(second, i, |second|);
    assert Has(second, second[i].0);
  }

  lemma {:induction false} MergedLine(updates: Updates, lines: Lines, j: nat)
    requires j < |Merge(updates, lines)|
    ensures Merge(updates, lines)[j]
         == if j < |lines| then RewriteLine(updates, lines[j]) else Missing(updates, lines)[j - |lines|]
  {
  }

  lemma {:induction false} MergedLineKept(first: Updates, second: Updates, lines: Lines, j: nat)
    requires UpdatesOk(second) && Agree(first, second) && j < |Merge(second, lines)|
    requires j < |lines| ==> RewriteLine(first, lines[j]) == lines[j]
    ensures RewriteLine(first, Merge(second, lines)[j]) == Merge(second, lines)[j]
  {
    MergedLine(second, lines, j);
    if j < |lines| {
      RewriteTwice(first, second, lines[j]);
    } else {
      AppendedLineKept(first, second, lines, j - |lines|);
    }
  }

  lemma {:induction false} AppendedLineKept(first: Updates, second: Updates, lines: Lines, j: nat)
    requires UpdatesOk(second) && Agree(first, second) && j < |Missing(second, lines)|
    ensures RewriteLine(first, Missing(second, lines)[j]) == Missing(second, lines)[j]
  {
    var i := MissingLine(second, lines, j);
    AppendedAgrees(first, second, i);
  }

  /** Settled lines stay settled through a merge that does not contradict them. */
  lemma {:induction false} MergeKeepsSettled(first: Updates, second: Updates, lines: Lines)
    requires UpdatesOk(second) && Agree(first, second) && Settled(first, lines)
    ensures Settled(first, Merge(second, lines))
  {
    forall i | 0 <= i < |first| ensures Seen(Merge(second, lines), first[i].0) {
      SeenStays(second, lines, first[i].0);
    }
    forall j | 0 <= j < |Merge(second, lines)|
      ensures RewriteLine(first, Merge(second, lines)[j]) == Merge(second, lines)[j]
    {
      MergedLineKept(first, second, lines, j);
    }
  }

  /** After a merge its updates are settled. */
  lemma {:induction false} MergeSettles(updates: Updates, lines: Lines)
    requires UpdatesOk(updates)
    ensures Settled(updates, Merge(updates, lines))
  {
    var merged := Merge(updates, lines);
    forall i | 0 <= i < |updates| ensures Seen(merged, updates[i].0) {
      assert Has(updates, updates[i].0);
      UpdatedIsSeen(updates, lines, updates[i].0);
    }
    forall j | 0 <= j < |merged| ensures RewriteLine(updates, merged[j]) == merged[j] {
      if j < |lines| {
        var key := ColumnOneKey(lines[j]);
        if key.Some? { AssignmentKey(key.value, ValueOf(updates, key.value)); }
      } else {
        var i := MissingLine(updates, lines, j - |lines|);
        AppendedAgrees(updates, updates, i);
      }
    }
  }

  lemma {:induction false} ValueOneLine(updates: Updates, key: string, n: nat)
    requires UpdatesOk(updates) && n <= |updates|
    ensures OneLine(ValueUpTo(updates, key, n))
  {
    if n > 0 {
      ValueOneLine(updates, key, n - 1);
    }
  }

  lemma {:induction false} AssignmentOneLine(key: string, value: string)
    requires IsIdentifier(key) && OneLine(value)
    ensures OneLine(Assignment(key, value))
  {
  }

  lemma {:induction false} MergeOneLine(updates: Updates, lines: Lines)
    requires UpdatesOk(updates) && AllOneLine(lines)
    ensures AllOneLine(Merge(updates, lines))
  {
    var merged := Merge(updates, lines);
    forall j | 0 <= j < |merged| ensures OneLine(merged[j]) {
      if j < |lines| {
        var key := ColumnOneKey(lines[j]);
        if key.Some? {
          ValueOneLine(updates, key.value, |updates|);
          AssignmentOneLine(key.value, ValueOf(updates, key.value));
        }
      } else {
        var i := MissingLine(updates, lines, j - |lines|);
        AssignmentOneLine(updates[i].0, updates[i].1);
      }
    }
  }

  // ---------- the file ----------

  const MARKERS := ["change-me", "change-me-to-a-long-random-string", "change-me-pepper-for-argon2",
                    "change-me-blind-index-pepper", "change-me-32-byte-base64-key"]

  /** `part` stands somewhere in `s`. */
  predicate Contains(s: string, part: string) {
    exists i :: 0 <= i <= |s| - |part| && StandsAt(s, part, i)
  }

  predicate StandsAt(s: string, part: string, i: int) {
    0 <= i <= |s| - |part| && forall k :: 0 <= k < |part| ==> s[i + k] == part[k]
  }

  /** `str.strip` of one given character. */
  function StripChar(s: string, c: char): string {
    if |s| > 0 && s[0] == c then StripChar(s[1..], c)
    else if |s| > 0 && s[|s| - 1] == c then StripChar(s[..|s| - 1], c)
    else s
  }

  predicate IsPlaceholder(value: string) {
    var v := StripChar(StripChar(Text.Strip(value), '"'), '\'');
    v == "" || exists i :: 0 <= i < |MARKERS| && Contains(v, MARKERS[i])
  }

  lemma {:induction false} StripCharIs(s: string, c: char) returns (i: nat, j: nat)
    ensures i <= j <= |s| && StripChar(s, c) == s[i..j]
    ensures forall k :: 0 <= k < |s| && !(i <= k < j) ==> s[k] == c
    decreases |s|
  {
    i, j := 0, |s|;
    if |s| > 0 && s[0] == c {
      var m, n := StripCharIs(s[1..], c);
      i, j := m + 1, n + 1;
      SliceOfSlice(s, 1, |s|, m, n - m);
      forall k | 0 <= k < |s| && !(i <= k < j) ensures s[k] == c {
        assert k > 0 ==> s[1..][k - 1] == s[k];
      }
    } else if |s| > 0 && s[|s| - 1] == c {
      i, j := StripCharIs(s[..|s| - 1], c);
      SliceOfSlice(s, 0, |s| - 1, i, j - i);
      assert StripChar(s, c) == StripChar(s[..|s| - 1], c);
    }
  }

  lemma {:induction false} SliceOfSlice(s: string, i: nat, j: nat, n: nat, m: nat)
    requires i <= j <= |s| && n + m <= j - i
    ensures s[i..j][n..n + m] == s[i + n..i + n + m]
  {
    var a, b := s[i..j][n..n + m], s[i + n..i + n + m];
    assert |a| == |b| && forall k :: 0 <= k < m ==> a[k] == b[k];
  }

  /** Trimming characters `part` neither begins nor ends with loses no occurrence of it. */
  lemma {:induction false} TrimmedContains(s: string, i: nat, j: nat, part: string)
    requires i <= j <= |s| && |part| > 0
    requires forall k :: 0 <= k < |s| && !(i <= k < j) ==> s[k] != part[0] && s[k] != part[|part| - 1]
    ensures Contains(s[i..j], part) <==> Contains(s, part)
  {
    var t := s[i..j];
    if Contains(s, part) {
      var n :| 0 <= n <= |s| - |part| && StandsAt(s, part, n);
      assert s[n + 0] == part[0] && s[n + (|part| - 1)] == part[|part| - 1];
      assert i <= n && n + |part| <= j;
      assert StandsAt(t, part, n - i);
    }
    if Contains(t, part) {
      var n :| 0 <= n <= |t| - |part| && StandsAt(t, part, n);
      StandsAtTrimmed(s, i, j, part, n);
    }
  }

  lemma {:induction false} StandsAtTrimmed(s: string, i: nat, j: nat, part: string, n: int)
    requires i <= j <= |s| && StandsAt(s[i..j], part, n)
    ensures StandsAt(s, part, i + n)
  {
    forall k | 0 <= k < |part| ensures s[i + n + k] == part[k] {
      assert s[i..j][n + k] == part[k];
    }
  }

  const MARKER := "change-me"

  lemma {:induction false} MarkersBegin(i: nat)
    requires i < |MARKERS|
    ensures |MARKERS[i]| >= |MARKER| && forall k :: 0 <= k < |MARKER| ==> MARKERS[i][k] == MARKER[k]
  {
  }

  lemma {:induction false} MarkersContained(v: string)
    ensures (exists i :: 0 <= i < |MARKERS| && Contains(v, MARKERS[i])) <==> Contains(v, MARKER)
  {
    assert MARKERS[0] == MARKER;
    forall i | 0 <= i < |MARKERS| && Contains(v, MARKERS[i]) ensures Contains(v, MARKER) {
      MarkersBegin(i);
      var n :| 0 <= n <= |v| - |MARKERS[i]| && StandsAt(v, MARKERS[i], n);
      assert StandsAt(v, MARKER, n);
    }
  }

  /** A value is a placeholder exactly when `change-me` stands in it, or nothing is left of it but space and quotes. */
  lemma {:induction false} PlaceholderIff(value: string)
    ensures IsPlaceholder(value)
       <==> Contains(value, "change-me") || StripChar(StripChar(Text.Strip(value), '"'), '\'') == ""
  {
    var i, j := Text.StripRemovesSpaces(value);
    TrimmedContains(value, i, j, MARKER);
    var s := Text.Strip(value);
    i, j := StripCharIs(s, '"');
    TrimmedContains(s, i, j, MARKER);
    var t := StripChar(s, '"');
    i, j := StripCharIs(t, '\'');
    TrimmedContains(t, i, j, MARKER);
    MarkersContained(StripChar(t, '\''));
  }

  /** The update may be applied. */
  predicate Applies(existing: Env, key: string, onlyMissing: bool) {
    !onlyMissing || key !in existing || IsPlaceholder(existing[key])
  }

  function Applied(existing: Env, updates: Updates, onlyMissing: bool): Updates {
    if |updates| == 0 then []
    else
      var n := |updates| - 1;
      var before := Applied(existing, updates[..n], onlyMissing);
      if Applies(existing, updates[n].0, onlyMissing) then before + [updates[n]] else before
  }

  /** What the script reads: the file, else the example, else nothing. */
  function SourceText(text: Option<string>, example: Option<string>): string {
    match text case Some(t) => t case None => example.GetOr("")
  }

  /** The lines it rewrites; a file without lines is replaced by the example's. */
  function SourceLines(text: Option<string>, example: Option<string>): Lines {
    var lines := SplitLines(SourceText(text, example));
    if |lines| == 0 && example.Some? then SplitLines(example.value) else lines
  }

  /** The text `upsert_env` writes. */
  function Upserted(text: Option<string>, example: Option<string>, updates: Updates, onlyMissing: bool): string {
    var applied := Applied(ParseEnv(SplitLines(SourceText(text, example))), updates, onlyMissing);
    Unlines(Merge(applied, SourceLines(text, example)))
  }

  class File {
    var text: Option<string>
    const example: Option<string>

    constructor (text: Option<string>, example: Option<string>)
      ensures this.text == text && this.example == example
    {
      this.text := text;
      this.example := example;
    }

    method ReadEnv(lines: Lines) returns (out: Env)
      ensures out == ParseEnv(lines)
    {
      out := map[];
      for i := 0 to |lines|
        invariant out == ParseUpTo(lines, i)
      {
        var entry := ReadLine(lines[i]);
        if entry.Some? {
          out := out[entry.value.0 := entry.value.1];
        }
      }
    }

    /** The loop body: comments and lines without `=` are skipped. */
    static method ReadLine(line: string) returns (entry: Option<(string, string)>)
      ensures entry == ParseLine(line)
      ensures entry.Some? <==> '=' in Text.Strip(line) && Text.Strip(line)[0] != '#'
      ensures entry.Some? ==> exists n :: 0 <= n < |Text.Strip(line)| && SplitsAt(Text.Strip(line), n, entry.value)
    {
      var s := Text.Strip(line);
      var n := IndexOf(s, '=');
      if |s| == 0 || s[0] == '#' || n == |s| {
        return None;
      }
      entry := Some((Text.Strip(s[..n]), Text.Strip(s[n + 1..])));
      assert SplitsAt(s, n, entry.value);
    }

    method Upsert(updates: Updates, onlyMissing: bool)
      modifies this
      ensures text == Some(Upserted(old(text), example, updates, onlyMissing))
    {
      var existing := ReadEnv(SplitLines(SourceText(text, example)));
      var lines := SourceLines(text, example);
      var applied := Select(existing, updates, onlyMissing);
      if |applied| == 0 {
        EmptyMerge(lines);
        text := Some(Unlines(lines));
        return;
      }
      var newLines := Rewrite(applied, lines);
      text := Some(Unlines(newLines));
    }

    /** `prepare_production_env`: three merges; the draw is what the random generators returned. */
    method Prepare(runtime: Runtime, draw: Draw)
      modifies this
      ensures text == Some(Prepared(old(text), example, runtime, draw))
    {
      var existing: Env := map[];
      if text.Some? {
        existing := ReadEnv(SplitLines(text.value));
      }
      var existingPassword := if PASSWORD_KEY in existing then existing[PASSWORD_KEY] else "";
      var password := if |existingPassword| >= 16 && existingPassword != "site_panel_dev"
                      then existingPassword else draw.token;
      Upsert(draw.secrets + [(PASSWORD_KEY, password)], true);
      Upsert(runtime(password), false);
      Upsert([(PASSWORD_KEY, password)], false);
    }

    method Select(existing: Env, updates: Updates, onlyMissing: bool) returns (applied: Updates)
      ensures applied == Applied(existing, updates, onlyMissing)
    {
      applied := [];
      for i := 0 to |updates|
        invariant applied == Applied(existing, updates[..i], onlyMissing)
      {
        assert updates[..i + 1][..i] == updates[..i];
        if !onlyMissing || updates[i].0 !in existing || IsPlaceholder(existing[updates[i].0]) {
          applied := applied + [updates[i]];
        }
      }
      assert updates[..|updates|] == updates;
    }

    /** The loop over the lines, then the loop over the updates not seen in it. */
    method Rewrite(applied: Updates, lines: Lines) returns (newLines: Lines)
      ensures newLines == Merge(applied, lines)
    {
      var seen: set<string> := {};
      newLines := [];
      for j := 0 to |lines|
        invariant RewrittenUpTo(applied, lines, newLines, j) && SeenIs(applied, lines, seen, j)
      {
        var key := ColumnOneKey(lines[j]);
        SeenNext(applied, lines, seen, j);
        RewrittenNext(applied, lines, newLines, j);
        if key.Some? && Has(applied, key.value) {
          newLines := newLines + [Assignment(key.value, ValueOf(applied, key.value))];
          seen := seen + {key.value};
        } else {
          newLines := newLines + [lines[j]];
        }
      }
      AllRewritten(applied, lines, newLines);
      newLines := AppendMissing(applied, lines, newLines, seen);
    }

    /** The loop over the updates. */
    method AppendMissing(applied: Updates, lines: Lines, rewritten: Lines, seen: set<string>) returns (newLines: Lines)
      requires SeenIs(applied, lines, seen, |lines|)
      ensures newLines == rewritten + Missing(applied, lines)
    {
      newLines := rewritten;
      for i := 0 to |applied|
        invariant newLines == rewritten + MissingUpTo(applied, lines, i)
      {
        assert Has(applied, applied[i].0);
        if applied[i].0 !in seen {
          newLines := newLines + [Assignment(applied[i].0, applied[i].1)];
        }
      }
    }
  }

  /** `seen` are the applied keys some of the first `j` lines assign at column one. */
  ghost predicate SeenIs(applied: Updates, lines: Lines, seen: set<string>, j: nat)
    requires j <= |lines|
  {
    forall key :: key in seen <==> Has(applied, key) && SeenUpTo(lines, key, j)
  }

  ghost predicate RewrittenUpTo(applied: Updates, lines: Lines, newLines: Lines, j: nat)
    requires j <= |lines|
  {
    |newLines| == j && forall i :: 0 <= i < j ==> newLines[i] == RewriteLine(applied, lines[i])
  }

  lemma {:induction false} SeenNext(applied: Updates, lines: Lines, seen: set<string>, j: nat)
    requires j < |lines| && SeenIs(applied, lines, seen, j)
    ensures var key := ColumnOneKey(lines[j]);
            SeenIs(applied, lines, if key.Some? && Has(applied, key.value) then seen + {key.value} else seen, j + 1)
  {
    forall key ensures SeenUpTo(lines, key, j + 1) <==> SeenUpTo(lines, key, j) || ColumnOneKey(lines[j]) == Some(key) {
    }
  }

  lemma {:induction false} RewrittenNext(applied: Updates, lines: Lines, newLines: Lines, j: nat)
    requires j < |lines| && RewrittenUpTo(applied, lines, newLines, j)
    ensures RewrittenUpTo(applied, lines, newLines + [RewriteLine(applied, lines[j])], j + 1)
  {
  }

  lemma {:induction false} AllRewritten(applied: Updates, lines: Lines, newLines: Lines)
    requires RewrittenUpTo(applied, lines, newLines, |lines|)
    ensures newLines == RewriteAll(applied, lines)
  {
  }

  lemma {:induction false} EmptyMerge(lines: Lines)
    ensures Merge([], lines) == lines
  {
    assert RewriteAll([], lines) == lines;
  }

  lemma {:induction false} SourceOneLine(text: Option<string>, example: Option<string>)
    ensures AllOneLine(SourceLines(text, example)) && AllOneLine(SplitLines(SourceText(text, example)))
  {
    SplitFromOneLine("", SourceText(text, example));
    SplitFromOneLine("", example.GetOr(""));
  }

  lemma {:induction false} AppliedToAll(existing: Env, updates: Updates)
    ensures Applied(existing, updates, false) == updates
    decreases |updates|
  {
    if |updates| != 0 {
      var n := |updates| - 1;
      AppliedToAll(existing, updates[..n]);
      assert updates == updates[..n] + [updates[n]];
    }
  }

  /** A written file is read back as the lines that were written. */
  lemma {:induction false} WrittenIsRead(lines: Lines, example: Option<string>)
    requires AllOneLine(lines) && |lines| > 0
    ensures SplitLines(SourceText(Some(Unlines(lines)), example)) == lines
    ensures SourceLines(Some(Unlines(lines)), example) == lines
  {
    SplitUnlines(lines);
  }

  /** Overwriting with the same values twice writes the same text as once. */
  lemma {:induction false} OverwriteIdempotent(text: Option<string>, example: Option<string>, updates: Updates)
    requires UpdatesOk(updates)
    ensures var once := Upserted(text, example, updates, false);
            Upserted(Some(once), example, updates, false) == once
  {
    var lines := SourceLines(text, example);
    var merged := Merge(updates, lines);
    AppliedToAll(ParseEnv(SplitLines(SourceText(text, example))), updates);
    SourceOneLine(text, example);
    MergeOneLine(updates, lines);
    MergeSettles(updates, lines);
    SettledIsFixed(updates, merged);
    if |merged| > 0 {
      WrittenIsRead(merged, example);
      AppliedToAll(ParseEnv(merged), updates);
    } else {
      EmptySourceStaysEmpty(text, example, updates);
    }
  }

  lemma {:induction false} EmptySourceStaysEmpty(text: Option<string>, example: Option<string>, updates: Updates)
    requires UpdatesOk(updates) && Merge(updates, SourceLines(text, example)) == []
    ensures Upserted(Some(""), example, updates, false) == ""
  {
    var lines := SourceLines(text, example);
    assert |lines| == 0;
    assert updates == [] by {
      if |updates| > 0 && !Seen(lines, updates[0].0) { MissingSeen(updates, lines, 0, |updates|); }
    }
    assert SourceLines(Some(""), example) == [];
  }

  // ---------- preparing a production file ----------

  const PASSWORD_KEY := "POSTGRES_PASSWORD"

  /** The settings derived from the domains and the database password. */
  type Runtime = string -> Updates

  /** What the random generators return in one run. */
  datatype Draw = Draw(secrets: Updates, token: string)

  /** A database password worth keeping. */
  predicate LongEnough(password: string) {
    |password| >= 16 && password != "site_panel_dev"
  }

  function PasswordUpdate(password: string): Updates {
    [(PASSWORD_KEY, password)]
  }

  /** The database password of a run: a long enough one is kept. */
  function Password(text: Option<string>, token: string): string {
    var existing := if text.Some? then ParseEnv(SplitLines(text.value)) else map[];
    var stored := if PASSWORD_KEY in existing then existing[PASSWORD_KEY] else "";
    if LongEnough(stored) then stored else token
  }

  function Prepared(text: Option<string>, example: Option<string>, runtime: Runtime, draw: Draw): string {
    var password := Password(text, draw.token);
    var first := Upserted(text, example, draw.secrets + PasswordUpdate(password), true);
    var second := Upserted(Some(first), example, runtime(password), false);
    Upserted(Some(second), example, PasswordUpdate(password), false)
  }

  /** Usable random values: identifiers with stripped one-line values that carry no placeholder marker. */
  ghost predicate DrawOk(draw: Draw) {
    && UpdatesOk(draw.secrets) && !Has(draw.secrets, PASSWORD_KEY)
    && (forall i :: 0 <= i < |draw.secrets| ==> Text.Stripped(draw.secrets[i].1) && !IsPlaceholder(draw.secrets[i].1))
    && OneLine(draw.token) && Text.Stripped(draw.token) && LongEnough(draw.token)
  }

  /** The derived settings are one-line and set neither the password nor a secret. */
  ghost predicate RuntimeOk(runtime: Runtime, draw: Draw) {
    forall password :: OneLine(password) ==>
      && UpdatesOk(runtime(password)) && !Has(runtime(password), PASSWORD_KEY)
      && forall i :: 0 <= i < |draw.secrets| ==> !Has(runtime(password), draw.secrets[i].0)
  }

  /** Every line read under `key` starts with it at column one. */
  ghost predicate ColumnOneOnly(lines: Lines, key: string) {
    forall j :: 0 <= j < |lines| && Reads(lines[j], key) ==> ColumnOneKey(lines[j]).Some?
  }

  lemma {:induction false} MergedLineColumnOne(updates: Updates, lines: Lines, key: string, j: nat)
    requires UpdatesOk(updates) && ColumnOneOnly(lines, key) && j < |Merge(updates, lines)|
    requires Reads(Merge(updates, lines)[j], key)
    ensures ColumnOneKey(Merge(updates, lines)[j]).Some?
  {
    if j < |lines| {
      RewriteKeepsKey(updates, lines[j], key);
      RewriteKeepsColumn(updates, lines[j]);
    } else {
      var i := MissingLine(updates, lines, j - |lines|);
      AssignmentKey(updates[i].0, updates[i].1);
    }
  }

  lemma {:induction false} ColumnOneOnlyKept(updates: Updates, lines: Lines, key: string)
    requires UpdatesOk(updates) && ColumnOneOnly(lines, key)
    ensures ColumnOneOnly(Merge(updates, lines), key)
  {
    var merged := Merge(updates, lines);
    forall j | 0 <= j < |merged| && Reads(merged[j], key) ensures ColumnOneKey(merged[j]).Some? {
      MergedLineColumnOne(updates, lines, key, j);
    }
  }

  /** Where the reader only meets column-one lines, a merged key parses back. */
  lemma {:induction false} ParsesBack(updates: Updates, lines: Lines, key: string)
    requires UpdatesOk(updates) && Has(updates, key) && Text.Stripped(ValueOf(updates, key))
    requires ColumnOneOnly(lines, key)
    ensures Get(ParseEnv(Merge(updates, lines)), key) == Some(ValueOf(updates, key))
  {
    ParsesBackIff(updates, lines, key);
    if Seen(lines, key) {
      LastLineColumnOne(lines, key);
    }
  }

  lemma {:induction false} LastLineColumnOne(lines: Lines, key: string)
    requires ColumnOneOnly(lines, key) && Seen(lines, key)
    ensures LastLine(lines, key).Some? && ColumnOneKey(LastLine(lines, key).value).Some?
  {
    SeenIsRead(lines, key);
    LastLineReads(lines, key);
  }

  lemma {:induction false} ValueReadClean(line: string)
    requires OneLine(line)
    ensures Text.Stripped(ValueRead(line)) && OneLine(ValueRead(line))
  {
    var s := Text.Strip(line);
    var n := IndexOf(s, '=');
    if n < |s| {
      Text.StripStrips(s[n + 1..]);
      StripOneLine(line);
      StripOneLine(s[n + 1..]);
    }
  }

  lemma {:induction false} ParsedValuesClean(lines: Lines, key: string)
    requires AllOneLine(lines) && key in ParseEnv(lines)
    ensures Text.Stripped(ParseEnv(lines)[key]) && OneLine(ParseEnv(lines)[key])
  {
    var i := LastWhere(lines, Reader(key), |lines|);
    ParseDecides(lines, key, |lines|);
    ValueReadClean(lines[i]);
  }

  lemma {:induction false} StripLeftOneLine(s: string)
    requires OneLine(s)
    ensures OneLine(Text.StripLeft(s))
  {
    if |s| > 0 && Text.IsSpace(s[0]) {
      StripLeftOneLine(s[1..]);
    }
  }

  lemma {:induction false} StripOneLine(s: string)
    requires OneLine(s)
    ensures OneLine(Text.Strip(s))
  {
    StripLeftOneLine(s);
    Text.StripRightEnds(Text.StripLeft(s));
  }

  lemma {:induction false} PasswordClean(text: Option<string>, draw: Draw)
    requires DrawOk(draw)
    ensures var password := Password(text, draw.token);
            Text.Stripped(password) && OneLine(password) && LongEnough(password)
  {
    if text.Some? && PASSWORD_KEY in ParseEnv(SplitLines(text.value)) {
      SplitFromOneLine("", text.value);
      ParsedValuesClean(SplitLines(text.value), PASSWORD_KEY);
    }
  }

  // ---------- which updates apply ----------

  lemma {:induction false} AppliedFrom(existing: Env, updates: Updates, i: nat) returns (j: nat)
    requires i < |Applied(existing, updates, true)|
    ensures j < |updates| && Applied(existing, updates, true)[i] == updates[j]
    ensures Applies(existing, updates[j].0, true)
    ensures i <= j
    decreases |updates|
  {
    var n := |updates| - 1;
    if i < |Applied(existing, updates[..n], true)| {
      j := AppliedFrom(existing, updates[..n], i);
    } else {
      AppliedShorter(existing, updates[..n]);
      j := n;
    }
  }

  lemma {:induction false} AppliedShorter(existing: Env, updates: Updates)
    ensures |Applied(existing, updates, true)| <= |updates|
    decreases |updates|
  {
    if |updates| != 0 {
      AppliedShorter(existing, updates[..|updates| - 1]);
    }
  }

  /** The applied updates are in order and distinct, and hold the given values for the keys that apply. */
  lemma {:induction false} AppliedOk(existing: Env, updates: Updates, key: string)
    requires UpdatesOk(updates)
    ensures UpdatesOk(Applied(existing, updates, true))
    ensures Has(Applied(existing, updates, true), key) <==> Has(updates, key) && Applies(existing, key, true)
    ensures Has(Applied(existing, updates, true), key)
            ==> ValueOf(Applied(existing, updates, true), key) == ValueOf(updates, key)
    decreases |updates|
  {
    if |updates| != 0 {
      var n := |updates| - 1;
      var front := updates[..n];
      AppliedOk(existing, front, key);
      HasPrefix(updates, key);
      AppliedAppend(existing, updates, key);
      ValueOfAppend(front, updates[n], key);
      assert updates == front + [updates[n]];
      ValueOfAppend(Applied(existing, front, true), updates[n], key);
    }
  }

  lemma {:induction false} AppliedAppend(existing: Env, updates: Updates, key: string)
    requires UpdatesOk(updates) && |updates| > 0
    requires UpdatesOk(Applied(existing, updates[..|updates| - 1], true))
    ensures UpdatesOk(Applied(existing, updates, true))
    ensures var n := |updates| - 1;
            Has(Applied(existing, updates, true), key)
            <==> Has(Applied(existing, updates[..n], true), key)
                 || (updates[n].0 == key && Applies(existing, key, true))
  {
    var n := |updates| - 1;
    var before, all := Applied(existing, updates[..n], true), Applied(existing, updates, true);
    if Applies(existing, updates[n].0, true) {
      HasPrefix(all, key);
      assert all[..|all| - 1] == before;
      forall i | 0 <= i < |before| ensures before[i].0 != updates[n].0 {
        var j := AppliedFrom(existing, updates[..n], i);
      }
    }
  }

  lemma {:induction false} ValuePrefix(updates: Updates, last: (string, string), key: string, n: nat)
    requires n <= |updates|
    ensures ValueUpTo(updates + [last], key, n) == ValueUpTo(updates, key, n)
  {
    if n > 0 {
      ValuePrefix(updates, last, key, n - 1);
    }
  }

  lemma {:induction false} ValueOfAppend(updates: Updates, last: (string, string), key: string)
    ensures ValueOf(updates + [last], key) == if last.0 == key then last.1 else ValueOf(updates, key)
  {
    ValuePrefix(updates, last, key, |updates|);
  }

  // ---------- the rerun ----------

  /** The lines after each merge of a production run. */
  ghost function FirstLines(text: Option<string>, example: Option<string>, draw: Draw): Lines {
    var existing := ParseEnv(SplitLines(SourceText(text, example)));
    var updates := draw.secrets + PasswordUpdate(Password(text, draw.token));
    Merge(Applied(existing, updates, true), SourceLines(text, example))
  }

  ghost function SecondLines(text: Option<string>, example: Option<string>, runtime: Runtime, draw: Draw): Lines {
    Merge(runtime(Password(text, draw.token)), FirstLines(text, example, draw))
  }

  ghost function FinalLines(text: Option<string>, example: Option<string>, runtime: Runtime, draw: Draw): Lines {
    Merge(PasswordUpdate(Password(text, draw.token)), SecondLines(text, example, runtime, draw))
  }

  lemma {:induction false} PasswordUpdateOk(password: string)
    requires OneLine(password)
    ensures UpdatesOk(PasswordUpdate(password))
    ensures Has(PasswordUpdate(password), PASSWORD_KEY) && ValueOf(PasswordUpdate(password), PASSWORD_KEY) == password
    ensures forall key :: key != PASSWORD_KEY ==> !Has(PasswordUpdate(password), key)
  {
    assert PasswordUpdate(password)[0].0 == PASSWORD_KEY;
  }

  lemma {:induction false} SecretUpdatesOk(draw: Draw, password: string)
    requires DrawOk(draw) && OneLine(password)
    ensures UpdatesOk(draw.secrets + PasswordUpdate(password))
  {
    var all := draw.secrets + PasswordUpdate(password);
    forall i, j | 0 <= i < j < |all| ensures all[i].0 != all[j].0 {
      assert i < |draw.secrets| && Has(draw.secrets, draw.secrets[i].0);
    }
  }

  /** The first merge: nonempty one-line lines in which every secret reads as a real value. */
  lemma {:induction false} FirstMerge(text: Option<string>, example: Option<string>, draw: Draw, i: nat)
    requires DrawOk(draw) && i < |draw.secrets|
    requires ColumnOneOnly(SourceLines(text, example), draw.secrets[i].0)
    ensures var env := ParseEnv(FirstLines(text, example, draw));
            Real(env, draw.secrets[i].0)
  {
    var key := draw.secrets[i].0;
    var password := Password(text, draw.token);
    var updates := draw.secrets + PasswordUpdate(password);
    var lines := SourceLines(text, example);
    var existing := ParseEnv(SplitLines(SourceText(text, example)));
    var applied := Applied(existing, updates, true);
    PasswordClean(text, draw);
    SecretUpdatesOk(draw, password);
    AppliedOk(existing, updates, key);
    assert updates[i].0 == key;
    ValueAt(updates, i, |updates|);
    if Applies(existing, key, true) {
      ParsesBack(applied, lines, key);
    } else {
      OtherKeysKept(applied, lines, key);
      assert SplitLines(SourceText(text, example)) != [];
    }
  }

  lemma {:induction false} FirstLinesOk(text: Option<string>, example: Option<string>, draw: Draw)
    requires DrawOk(draw)
    ensures AllOneLine(FirstLines(text, example, draw))
    ensures ColumnOneOnly(SourceLines(text, example), PASSWORD_KEY) ==>
              ColumnOneOnly(FirstLines(text, example, draw), PASSWORD_KEY)
    ensures |FirstLines(text, example, draw)| > 0
  {
    var password := Password(text, draw.token);
    var updates := draw.secrets + PasswordUpdate(password);
    var existing := ParseEnv(SplitLines(SourceText(text, example)));
    PasswordClean(text, draw);
    SecretUpdatesOk(draw, password);
    AppliedOk(existing, updates, PASSWORD_KEY);
    SourceOneLine(text, example);
    MergeOneLine(Applied(existing, updates, true), SourceLines(text, example));
    if ColumnOneOnly(SourceLines(text, example), PASSWORD_KEY) {
      ColumnOneOnlyKept(Applied(existing, updates, true), SourceLines(text, example), PASSWORD_KEY);
    }
    if |SourceLines(text, example)| == 0 {
      assert PASSWORD_KEY !in existing;
      assert updates[|draw.secrets|].0 == PASSWORD_KEY;
      UpdatedIsSeen(Applied(existing, updates, true), [], PASSWORD_KEY);
    }
  }

  /** The text a run writes is its final lines. */
  lemma {:induction false} PreparedIsFinal(text: Option<string>, example: Option<string>, runtime: Runtime,
                                           draw: Draw)
    requires DrawOk(draw) && RuntimeOk(runtime, draw)
    ensures Prepared(text, example, runtime, draw) == Unlines(FinalLines(text, example, runtime, draw))
    ensures AllOneLine(FinalLines(text, example, runtime, draw)) && |FinalLines(text, example, runtime, draw)| > 0
  {
    var password := Password(text, draw.token);
    var l1, l2 := FirstLines(text, example, draw), SecondLines(text, example, runtime, draw);
    PasswordClean(text, draw);
    PasswordUpdateOk(password);
    FirstLinesOk(text, example, draw);
    WrittenIsRead(l1, example);
    AppliedToAll(ParseEnv(l1), runtime(password));
    MergeOneLine(runtime(password), l1);
    WrittenIsRead(l2, example);
    AppliedToAll(ParseEnv(l2), PasswordUpdate(password));
    MergeOneLine(PasswordUpdate(password), l2);
  }

  /** In the final lines the derived settings and the password are settled. */
  lemma {:induction false} FinalSettled(text: Option<string>, example: Option<string>, runtime: Runtime, draw: Draw)
    requires DrawOk(draw) && RuntimeOk(runtime, draw)
    ensures var password := Password(text, draw.token);
            var lines := FinalLines(text, example, runtime, draw);
            Settled(runtime(password), lines) && Settled(PasswordUpdate(password), lines)
  {
    var password := Password(text, draw.token);
    PasswordClean(text, draw);
    PasswordUpdateOk(password);
    MergeSettles(runtime(password), FirstLines(text, example, draw));
    MergeKeepsSettled(runtime(password), PasswordUpdate(password), SecondLines(text, example, runtime, draw));
    MergeSettles(PasswordUpdate(password), SecondLines(text, example, runtime, draw));
  }

  /** In the final lines the password reads back. */
  lemma {:induction false} FinalPassword(text: Option<string>, example: Option<string>, runtime: Runtime, draw: Draw)
    requires DrawOk(draw) && RuntimeOk(runtime, draw)
    requires ColumnOneOnly(SourceLines(text, example), PASSWORD_KEY)
    ensures Get(ParseEnv(FinalLines(text, example, runtime, draw)), PASSWORD_KEY) == Some(Password(text, draw.token))
  {
    var password := Password(text, draw.token);
    PasswordClean(text, draw);
    PasswordUpdateOk(password);
    FirstLinesOk(text, example, draw);
    ColumnOneOnlyKept(runtime(password), FirstLines(text, example, draw), PASSWORD_KEY);
    ParsesBack(PasswordUpdate(password), SecondLines(text, example, runtime, draw), PASSWORD_KEY);
  }

  /** In the final lines every secret reads as a real value. */
  lemma {:induction false} FinalSecret(text: Option<string>, example: Option<string>, runtime: Runtime, draw: Draw,
                                       i: nat)
    requires DrawOk(draw) && RuntimeOk(runtime, draw) && i < |draw.secrets|
    requires ColumnOneOnly(SourceLines(text, example), draw.secrets[i].0)
    ensures var env := ParseEnv(FinalLines(text, example, runtime, draw));
            Real(env, draw.secrets[i].0)
  {
    var key := draw.secrets[i].0;
    var password := Password(text, draw.token);
    PasswordClean(text, draw);
    PasswordUpdateOk(password);
    assert key != PASSWORD_KEY by { assert Has(draw.secrets, key); }
    FirstMerge(text, example, draw, i);
    OtherKeysKept(runtime(password), FirstLines(text, example, draw), key);
    OtherKeysKept(PasswordUpdate(password), SecondLines(text, example, runtime, draw), key);
  }

  /** Every secret of the draw has a real value in the environment. */
  ghost predicate SecretsReal(env: Env, draw: Draw) {
    forall i :: 0 <= i < |draw.secrets| ==> Real(env, draw.secrets[i].0)
  }

  predicate Real(env: Env, key: string) {
    key in env && !IsPlaceholder(env[key])
  }

  /** The lines a file starts from: its own, or the example's if it has none. */
  ghost function StartLines(text: Option<string>, example: Option<string>): Lines {
    if text.Some? && SplitLines(text.value) != [] then SplitLines(text.value)
    else if example.Some? then SplitLines(example.value) else []
  }

  /** What a file reads as. */
  ghost function EnvOf(text: Option<string>, example: Option<string>): Env {
    ParseEnv(SplitLines(if text.Some? then text.value else if example.Some? then example.value else ""))
  }

  /** What a merge makes of the value read under a key that only column-one lines assign. */
  lemma {:induction false} MergeReads(updates: Updates, lines: Lines, key: string)
    requires UpdatesOk(updates)
    requires Has(updates, key) ==> ColumnOneOnly(lines, key) && Text.Stripped(ValueOf(updates, key))
    ensures Get(ParseEnv(Merge(updates, lines)), key)
         == if Has(updates, key) then Some(ValueOf(updates, key)) else Get(ParseEnv(lines), key)
  {
    if Has(updates, key) {
      ParsesBack(updates, lines, key);
    } else {
      OtherKeysKept(updates, lines, key);
    }
  }

  lemma {:induction false} AppliedAre(existing: Env, updates: Updates, onlyMissing: bool, key: string)
    requires UpdatesOk(updates)
    ensures var applied := Applied(existing, updates, onlyMissing);
            && UpdatesOk(applied)
            && (Has(applied, key) <==> Has(updates, key) && (onlyMissing ==> !Real(existing, key)))
            && (Has(applied, key) ==> ValueOf(applied, key) == ValueOf(updates, key))
  {
    if onlyMissing {
      AppliedOk(existing, updates, key);
    } else {
      AppliedToAll(existing, updates);
    }
  }

  /**
   What a merged file reads as: keys that are not updated, or must not be because they have a
   real value, read as before; the others as updated. "Before" is the file, or the example if
   the file has no lines.
   */
  lemma {:induction false} UpsertReads(text: Option<string>, example: Option<string>, updates: Updates,
                                       onlyMissing: bool, key: string)
    requires UpdatesOk(updates)
    requires Has(updates, key) ==> ColumnOneOnly(StartLines(text, example), key) && Text.Stripped(ValueOf(updates, key))
    ensures var after := EnvOf(Some(Upserted(text, example, updates, onlyMissing)), example);
            Get(after, key)
            == if Has(updates, key) && (onlyMissing ==> !Real(EnvOf(text, example), key))
               then Some(ValueOf(updates, key)) else Get(ParseEnv(StartLines(text, example)), key)
  {
    var lines := StartLines(text, example);
    var applied := Applied(EnvOf(text, example), updates, onlyMissing);
    AppliedAre(EnvOf(text, example), updates, onlyMissing, key);
    SourceOneLine(text, example);
    MergeOneLine(applied, lines);
    SplitUnlines(Merge(applied, lines));
    MergeReads(applied, lines, key);
  }

  /** The database password of a run: one of at least sixteen characters is kept, unless it is the default. */
  ghost function KeptPassword(text: Option<string>, draw: Draw): string {
    var stored := if text.Some? then Get(ParseEnv(SplitLines(text.value)), "POSTGRES_PASSWORD") else None;
    if stored.Some? && |stored.value| >= 16 && stored.value != "site_panel_dev" then stored.value else draw.token
  }

  /** Only keys the starting file assigns at column one, if at all, are asked about. */
  ghost predicate Plain(text: Option<string>, example: Option<string>, key: string) {
    ColumnOneOnly(StartLines(text, example), key)
  }

  lemma {:induction false} FirstReads(text: Option<string>, example: Option<string>, draw: Draw, key: string)
    requires DrawOk(draw) && key != PASSWORD_KEY && (Has(draw.secrets, key) ==> Plain(text, example, key))
    ensures Get(ParseEnv(FirstLines(text, example, draw)), key)
         == if Has(draw.secrets, key) && !Real(EnvOf(text, example), key) then Some(ValueOf(draw.secrets, key))
            else Get(ParseEnv(StartLines(text, example)), key)
  {
    var password := Password(text, draw.token);
    var updates := draw.secrets + PasswordUpdate(password);
    PasswordClean(text, draw);
    SecretUpdatesOk(draw, password);
    SecretOf(draw, password, key);
    AppliedAre(EnvOf(text, example), updates, true, key);
    MergeReads(Applied(EnvOf(text, example), updates, true), StartLines(text, example), key);
  }

  /** The password is the last of the first updates. */
  lemma {:induction false} SecretOf(draw: Draw, password: string, key: string)
    requires DrawOk(draw) && key != PASSWORD_KEY
    ensures var updates := draw.secrets + PasswordUpdate(password);
            && (Has(updates, key) <==> Has(draw.secrets, key)) && ValueOf(updates, key) == ValueOf(draw.secrets, key)
    ensures Has(draw.secrets, key) ==> Text.Stripped(ValueOf(draw.secrets, key))
  {
    HasAppend(draw.secrets, (PASSWORD_KEY, password), key);
    ValueOfAppend(draw.secrets, (PASSWORD_KEY, password), key);
    if Has(draw.secrets, key) {
      SecretStripped(draw, key);
    }
  }

  lemma {:induction false} SecretStripped(draw: Draw, key: string)
    requires DrawOk(draw) && Has(draw.secrets, key)
    ensures Text.Stripped(ValueOf(draw.secrets, key))
  {
    var i :| 0 <= i < |draw.secrets| && draw.secrets[i].0 == key;
    ValueAt(draw.secrets, i, |draw.secrets|);
  }

  lemma {:induction false} HasAppend(updates: Updates, last: (string, string), key: string)
    ensures Has(updates + [last], key) <==> Has(updates, key) || last.0 == key
  {
    var all := updates + [last];
    assert all[|updates|] == last && forall i :: 0 <= i < |updates| ==> all[i] == updates[i];
  }

  /**
   What a prepared production file reads as, key by key: the password kept or drawn, the
   derived settings, each secret as it was if it was real and drawn otherwise, and everything
   else as before.
   */
  lemma {:induction false} PreparedReads(text: Option<string>, example: Option<string>, runtime: Runtime, draw: Draw,
                                         key: string)
    requires DrawOk(draw) && RuntimeOk(runtime, draw)
    requires var updates := runtime(KeptPassword(text, draw));
             Has(updates, key) ==> Text.Stripped(ValueOf(updates, key))
    requires key == "POSTGRES_PASSWORD" || Has(runtime(KeptPassword(text, draw)), key) || Has(draw.secrets, key) ==>
               Plain(text, example, key)
    ensures var after := EnvOf(Some(Prepared(text, example, runtime, draw)), example);
            var password := KeptPassword(text, draw);
            Get(after, key)
            == if key == "POSTGRES_PASSWORD" then Some(password)
               else if Has(runtime(password), key) then Some(ValueOf(runtime(password), key))
               else if Has(draw.secrets, key) && !Real(EnvOf(text, example), key) then Some(ValueOf(draw.secrets, key))
               else Get(ParseEnv(StartLines(text, example)), key)
  {
    PreparedIsFinal(text, example, runtime, draw);
    SplitUnlines(FinalLines(text, example, runtime, draw));
    if key == PASSWORD_KEY {
      FinalPassword(text, example, runtime, draw);
    } else {
      FinalReads(text, example, runtime, draw, key);
      FirstReads(text, example, draw, key);
    }
  }

  lemma {:induction false} FinalReads(text: Option<string>, example: Option<string>, runtime: Runtime, draw: Draw,
                                      key: string)
    requires DrawOk(draw) && RuntimeOk(runtime, draw) && key != PASSWORD_KEY
    requires var updates := runtime(Password(text, draw.token));
             Has(updates, key) ==> Text.Stripped(ValueOf(updates, key)) && Plain(text, example, key)
    ensures var updates := runtime(Password(text, draw.token));
            Get(ParseEnv(FinalLines(text, example, runtime, draw)), key)
            == if Has(updates, key) then Some(ValueOf(updates, key))
               else Get(ParseEnv(FirstLines(text, example, draw)), key)
  {
    var password := Password(text, draw.token);
    PasswordClean(text, draw);
    PasswordUpdateOk(password);
    if Has(runtime(password), key) {
      FirstLinesColumnOne(text, example, draw, key);
    }
    MergeReads(runtime(password), FirstLines(text, example, draw), key);
    MergeReads(PasswordUpdate(password), SecondLines(text, example, runtime, draw), key);
  }

  lemma {:induction false} FirstLinesColumnOne(text: Option<string>, example: Option<string>, draw: Draw, key: string)
    requires DrawOk(draw) && Plain(text, example, key)
    ensures ColumnOneOnly(FirstLines(text, example, draw), key)
  {
    var password := Password(text, draw.token);
    var updates := draw.secrets + PasswordUpdate(password);
    PasswordClean(text, draw);
    SecretUpdatesOk(draw, password);
    AppliedAre(EnvOf(text, example), updates, true, key);
    ColumnOneOnlyKept(Applied(EnvOf(text, example), updates, true), StartLines(text, example), key);
  }

  /** A second draw names the same secrets. */
  ghost predicate SameSecrets(a: Draw, b: Draw) {
    |a.secrets| == |b.secrets| && forall i :: 0 <= i < |a.secrets| ==> a.secrets[i].0 == b.secrets[i].0
  }

  /** On the final lines a rerun's first merge changes nothing: only the password can still apply. */
  lemma {:induction false} RerunFirstMerge(lines: Lines, password: string, draw: Draw)
    requires Settled(PasswordUpdate(password), lines)
    requires SecretsReal(ParseEnv(lines), draw)
    ensures Merge(Applied(ParseEnv(lines), draw.secrets + PasswordUpdate(password), true), lines) == lines
  {
    var updates := draw.secrets + PasswordUpdate(password);
    var applied := Applied(ParseEnv(lines), updates, true);
    forall i | 0 <= i < |applied| ensures applied[i] == (PASSWORD_KEY, password) {
      var j := AppliedFrom(ParseEnv(lines), updates, i);
      assert j < |draw.secrets| ==> Real(ParseEnv(lines), draw.secrets[j].0);
    }
    OnlyPasswordSettled(applied, password, lines);
    SettledIsFixed(applied, lines);
  }

  lemma {:induction false} OnlyPasswordSettled(applied: Updates, password: string, lines: Lines)
    requires Settled(PasswordUpdate(password), lines)
    requires forall i :: 0 <= i < |applied| ==> applied[i] == (PASSWORD_KEY, password)
    ensures Settled(applied, lines)
  {
    var one := PasswordUpdate(password);
    assert one[0].0 == PASSWORD_KEY;
    forall j | 0 <= j < |lines| ensures RewriteLine(applied, lines[j]) == lines[j] {
      assert RewriteLine(one, lines[j]) == lines[j];
    }
  }

  /**
   Preparing the file twice writes the same text, whatever the second draw: provided the
   reader meets the secrets and the password only at column one in the starting file.
   */
  lemma {:induction false} RerunReproduces(text: Option<string>, example: Option<string>, runtime: Runtime,
                                           draw: Draw, again: Draw)
    requires DrawOk(draw) && RuntimeOk(runtime, draw) && SameSecrets(draw, again)
    requires ColumnOneOnly(SourceLines(text, example), PASSWORD_KEY)
    requires forall i :: 0 <= i < |draw.secrets| ==> ColumnOneOnly(SourceLines(text, example), draw.secrets[i].0)
    ensures var once := Prepared(text, example, runtime, draw);
            Prepared(Some(once), example, runtime, again) == once
  {
    var lines := FinalLines(text, example, runtime, draw);
    var password := Password(text, draw.token);
    PasswordClean(text, draw);
    PreparedIsFinal(text, example, runtime, draw);
    FinalSettled(text, example, runtime, draw);
    FinalPassword(text, example, runtime, draw);
    forall i | 0 <= i < |again.secrets| ensures Real(ParseEnv(lines), again.secrets[i].0) {
      FinalSecret(text, example, runtime, draw, i);
    }
    RerunOnFinal(lines, example, runtime, password, again);
  }

  lemma {:induction false} RerunOnFinal(lines: Lines, example: Option<string>, runtime: Runtime, password: string,
                                        draw: Draw)
    requires AllOneLine(lines) && |lines| > 0 && LongEnough(password)
    requires Get(ParseEnv(lines), PASSWORD_KEY) == Some(password)
    requires Settled(runtime(password), lines) && Settled(PasswordUpdate(password), lines)
    requires SecretsReal(ParseEnv(lines), draw)
    ensures Prepared(Some(Unlines(lines)), example, runtime, draw) == Unlines(lines)
  {
    RerunFirstUpsert(lines, example, password, draw);
    SettledUpsert(lines, example, runtime(password));
    SettledUpsert(lines, example, PasswordUpdate(password));
    PasswordKept(lines, draw.token, password);
    ThreeUpserts(Unlines(lines), example, runtime, draw, password);
  }

  lemma {:induction false} ThreeUpserts(text: string, example: Option<string>, runtime: Runtime, draw: Draw,
                                        password: string)
    requires Password(Some(text), draw.token) == password
    requires Upserted(Some(text), example, draw.secrets + PasswordUpdate(password), true) == text
    requires Upserted(Some(text), example, runtime(password), false) == text
    requires Upserted(Some(text), example, PasswordUpdate(password), false) == text
    ensures Prepared(Some(text), example, runtime, draw) == text
  {
  }

  lemma {:induction false} RerunFirstUpsert(lines: Lines, example: Option<string>, password: string, draw: Draw)
    requires AllOneLine(lines) && |lines| > 0
    requires Settled(PasswordUpdate(password), lines)
    requires SecretsReal(ParseEnv(lines), draw)
    ensures Upserted(Some(Unlines(lines)), example, draw.secrets + PasswordUpdate(password), true) == Unlines(lines)
  {
    RerunFirstMerge(lines, password, draw);
    UpsertChangesNothing(lines, example, draw.secrets + PasswordUpdate(password), true);
  }

  /** Overwriting settled lines with the values they carry writes the same text. */
  lemma {:induction false} SettledUpsert(lines: Lines, example: Option<string>, updates: Updates)
    requires AllOneLine(lines) && |lines| > 0 && Settled(updates, lines)
    ensures Upserted(Some(Unlines(lines)), example, updates, false) == Unlines(lines)
  {
    AppliedToAll(ParseEnv(lines), updates);
    SettledIsFixed(updates, lines);
    UpsertChangesNothing(lines, example, updates, false);
  }

  lemma {:induction false} PasswordKept(lines: Lines, token: string, password: string)
    requires AllOneLine(lines) && Get(ParseEnv(lines), PASSWORD_KEY) == Some(password)
    requires LongEnough(password)
    ensures Password(Some(Unlines(lines)), token) == password
  {
    SplitUnlines(lines);
  }

  lemma {:induction false} UpsertChangesNothing(lines: Lines, example: Option<string>, updates: Updates,
                                                onlyMissing: bool)
    requires AllOneLine(lines) && |lines| > 0
    requires Merge(Applied(ParseEnv(lines), updates, onlyMissing), lines) == lines
    ensures Upserted(Some(Unlines(lines)), example, updates, onlyMissing) == Unlines(lines)
  {
    WrittenIsRead(lines, example);
  }

  // ---------- the settings the script derives ----------

  const SECRET_KEYS := ["APP_SECRET_KEY", "APP_PEPPER", "BLIND_INDEX_PEPPER", "FIELD_ENCRYPTION_KEY"]

  const RUNTIME_KEYS := ["APP_ENV", "PANEL_DOMAIN", "API_DOMAIN", "CADDY_EMAIL", "PANEL_PUBLIC_URL",
                         "API_PUBLIC_URL", "CORS_ORIGINS", "POSTGRES_HOST", "POSTGRES_PORT", "POSTGRES_DB",
                         "POSTGRES_USER", "DATABASE_URL", "REDIS_URL", "CADDY_ADMIN_URL", "SITES_ROOT",
                         "CADDY_SITES_ROOT", "UPLOADS_ROOT", "DSAR_EXPORTS_ROOT", "DSAR_EXPORT_TTL_HOURS", "LOG_LEVEL"]

  datatype Domains = Domains(panel: string, api: string, email: string)

  function RuntimeValues(d: Domains, password: string): Updates {
    [("APP_ENV", "production"), ("PANEL_DOMAIN", d.panel), ("API_DOMAIN", d.api), ("CADDY_EMAIL", d.email),
     ("PANEL_PUBLIC_URL", "https://" + d.panel), ("API_PUBLIC_URL", "https://" + d.api),
     ("CORS_ORIGINS", "https://" + d.panel), ("POSTGRES_HOST", "postgres"), ("POSTGRES_PORT", "5432"),
     ("POSTGRES_DB", "site_panel"), ("POSTGRES_USER", "site_panel"),
     ("DATABASE_URL", "postgresql+asyncpg://site_panel:" + password + "@postgres:5432/site_panel"),
     ("REDIS_URL", "redis://redis:6379/0"), ("CADDY_ADMIN_URL", "http://caddy:2019"), ("SITES_ROOT", "/app/dist"),
     ("CADDY_SITES_ROOT", "/srv/sites"), ("UPLOADS_ROOT", "/app/uploads"), ("DSAR_EXPORTS_ROOT", "/app/dsar"),
     ("DSAR_EXPORT_TTL_HOURS", "24"), ("LOG_LEVEL", "INFO")]
  }

  lemma {:induction false} RuntimeKeysDistinct()
    ensures forall i, j :: 0 <= i < j < |RUNTIME_KEYS| ==> RUNTIME_KEYS[i] != RUNTIME_KEYS[j]
  {
  }

  lemma {:induction false} FirstKeysIdentifiers()
    ensures forall i :: 0 <= i < 8 ==> IsIdentifier(RUNTIME_KEYS[i])
  {
  }

  lemma {:induction false} MiddleKeysIdentifiers()
    ensures forall i :: 8 <= i < 14 ==> IsIdentifier(RUNTIME_KEYS[i])
  {
  }

  lemma {:induction false} LastKeysIdentifiers()
    ensures forall i :: 14 <= i < |RUNTIME_KEYS| ==> IsIdentifier(RUNTIME_KEYS[i])
  {
  }

  lemma {:induction false} RuntimeKeysDisjoint()
    ensures PASSWORD_KEY !in RUNTIME_KEYS && PASSWORD_KEY !in SECRET_KEYS
    ensures forall i, j :: 0 <= i < |RUNTIME_KEYS| && 0 <= j < |SECRET_KEYS| ==> RUNTIME_KEYS[i] != SECRET_KEYS[j]
  {
  }

  lemma {:induction false} RuntimeValuesKeys(d: Domains, password: string)
    ensures var u := RuntimeValues(d, password);
            |u| == |RUNTIME_KEYS| && forall i :: 0 <= i < |u| ==> u[i].0 == RUNTIME_KEYS[i]
  {
  }

  lemma {:induction false} HttpsOneLine(domain: string)
    requires OneLine(domain)
    ensures OneLine("https://" + domain)
  {
    OneLineConcat("https://", domain);
  }

  lemma {:induction false} DatabaseUrlOneLine(password: string)
    requires OneLine(password)
    ensures OneLine("postgresql+asyncpg://site_panel:" + password + "@postgres:5432/site_panel")
  {
    var head := "postgresql+asyncpg://site_panel:";
    OneLineConcat(head, password);
    OneLineConcat(head + password, "@postgres:5432/site_panel");
  }

  lemma {:induction false} RuntimeValuesOneLine(d: Domains, password: string)
    requires OneLine(d.panel) && OneLine(d.api) && OneLine(d.email) && OneLine(password)
    ensures var u := RuntimeValues(d, password);
            && OneLine(u[1].1) && OneLine(u[2].1) && OneLine(u[3].1) && OneLine(u[4].1)
            && OneLine(u[5].1) && OneLine(u[6].1) && OneLine(u[11].1)
  {
    HttpsOneLine(d.panel);
    HttpsOneLine(d.api);
    DatabaseUrlOneLine(password);
  }

  lemma {:induction false} FirstConstantsOneLine(d: Domains, password: string)
    ensures var u := RuntimeValues(d, password);
            OneLine(u[0].1) && OneLine(u[7].1) && OneLine(u[8].1) && OneLine(u[9].1) && OneLine(u[10].1)
  {
  }

  lemma {:induction false} MiddleConstantsOneLine(d: Domains, password: string)
    ensures var u := RuntimeValues(d, password);
            OneLine(u[12].1) && OneLine(u[13].1) && OneLine(u[14].1) && OneLine(u[15].1)
  {
  }

  lemma {:induction false} LastConstantsOneLine(d: Domains, password: string)
    ensures var u := RuntimeValues(d, password);
            OneLine(u[16].1) && OneLine(u[17].1) && OneLine(u[18].1) && OneLine(u[19].1)
  {
  }

  /** The twenty settings, one by one. */
  lemma {:induction false} TwentyOneLine(u: Updates)
    requires |u| == 20
    requires OneLine(u[0].1) && OneLine(u[1].1) && OneLine(u[2].1) && OneLine(u[3].1) && OneLine(u[4].1)
    requires OneLine(u[5].1) && OneLine(u[6].1) && OneLine(u[7].1) && OneLine(u[8].1) && OneLine(u[9].1)
    requires OneLine(u[10].1) && OneLine(u[11].1) && OneLine(u[12].1) && OneLine(u[13].1) && OneLine(u[14].1)
    requires OneLine(u[15].1) && OneLine(u[16].1) && OneLine(u[17].1) && OneLine(u[18].1) && OneLine(u[19].1)
    ensures forall i :: 0 <= i < |u| ==> OneLine(u[i].1)
  {
  }

  lemma {:induction false} AllValuesOneLine(d: Domains, password: string)
    requires OneLine(d.panel) && OneLine(d.api) && OneLine(d.email) && OneLine(password)
    ensures var u := RuntimeValues(d, password); forall i :: 0 <= i < |u| ==> OneLine(u[i].1)
  {
    RuntimeValuesOneLine(d, password);
    FirstConstantsOneLine(d, password);
    MiddleConstantsOneLine(d, password);
    LastConstantsOneLine(d, password);
    TwentyOneLine(RuntimeValues(d, password));
  }

  lemma {:induction false} OneLineConcat(a: string, b: string)
    requires OneLine(a) && OneLine(b)
    ensures OneLine(a + b)
  {
  }

  /** The script's own settings meet what the rerun needs, for one-line domains. */
  lemma {:induction false} RuntimeValuesOk(d: Domains, draw: Draw)
    requires OneLine(d.panel) && OneLine(d.api) && OneLine(d.email)
    requires |draw.secrets| == |SECRET_KEYS|
    requires forall i :: 0 <= i < |draw.secrets| ==> draw.secrets[i].0 == SECRET_KEYS[i]
    ensures RuntimeOk(password => RuntimeValues(d, password), draw)
  {
    var runtime: Runtime := password => RuntimeValues(d, password);
    RuntimeKeysDistinct();
    FirstKeysIdentifiers();
    MiddleKeysIdentifiers();
    LastKeysIdentifiers();
    RuntimeKeysDisjoint();
    forall password | OneLine(password)
      ensures UpdatesOk(runtime(password)) && !Has(runtime(password), PASSWORD_KEY)
      ensures forall i :: 0 <= i < |draw.secrets| ==> !Has(runtime(password), draw.secrets[i].0)
    {
      RuntimeValuesKeys(d, password);
      AllValuesOneLine(d, password);
    }
  }
}
