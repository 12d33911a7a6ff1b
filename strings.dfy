/**
 * The few `java.lang.String` operations the task code relies on, over
 * `seq<char>`: `trim`, `split` on the pattern `\s\|\s`, an ASCII
 * `toLowerCase`, and `contains`.
 */
module JavaStrings {

  /** `String.trim` strips every character whose code is at most U+0020. */
  predicate IsBlank(c: char) {
    c <= ' '
  }

  /** The regular-expression class `\s`: space, tab, line feed, vertical tab, form feed, carriage return. */
  predicate IsSpace(c: char) {
    c == ' ' || c == '\t' || c == '\n' || c as int == 0x0B || c as int == 0x0C || c == '\r'
  }

  /** The first position at or after `i` whose character `trim` keeps, or `|s|` (the first loop of `trim`). */
  function SkipBlanks(s: string, i: nat): (st: nat)
    requires i <= |s|
    ensures i <= st <= |s|
    ensures forall k :: i <= k < st ==> IsBlank(s[k])
    ensures st == |s| || !IsBlank(s[st])
    decreases |s| - i
  {
    if i < |s| && IsBlank(s[i]) then SkipBlanks(s, i + 1) else i
  }

  /** The end of `s[st..len]` once its trailing blanks are cut (the second loop of `trim`). */
  function CutBlanks(s: string, st: nat, len: nat): (e: nat)
    requires st <= len <= |s|
    ensures st <= e <= len
    ensures forall k :: e <= k < len ==> IsBlank(s[k])
    ensures e == st || !IsBlank(s[e - 1])
  {
    if st < len && IsBlank(s[len - 1]) then CutBlanks(s, st, len - 1) else len
  }

  /** `r` is the part of `s` that starts at `a`, and everything of `s` around it is blank. */
  ghost predicate TrimmedAt(s: string, r: string, a: int) {
    && 0 <= a && a + |r| <= |s| && r == s[a..a + |r|]
    && (forall k :: 0 <= k < a ==> IsBlank(s[k]))
    && (forall k :: a + |r| <= k < |s| ==> IsBlank(s[k]))
  }

  /** `String.trim`: the part of `s` left once its leading and trailing blanks are cut off. */
  function Trim(s: string): (r: string)
    ensures exists a :: TrimmedAt(s, r, a)
    ensures r == [] || (!IsBlank(r[0]) && !IsBlank(r[|r| - 1]))
    ensures |r| <= |s|
    ensures s == [] || (!IsBlank(s[0]) && !IsBlank(s[|s| - 1])) ==> r == s
  {
    var st := SkipBlanks(s, 0);
    var len := CutBlanks(s, st, |s|);
    assert TrimmedAt(s, s[st..len], st);
    s[st..len]
  }

  /** The delimiter `\s\|\s` matches the three characters of `s` starting at `i`. */
  predicate DelimiterAt(s: string, i: nat) {
    i + 3 <= |s| && IsSpace(s[i]) && s[i + 1] == '|' && IsSpace(s[i + 2])
  }

  /** No match of the delimiter lies wholly inside `s`. */
  predicate NoDelimiter(s: string) {
    forall i: nat :: i < |s| ==> !DelimiterAt(s, i)
  }

  /** A field with no match of the delimiter starting inside it, even one running on into `next`. */
  predicate SeparatedFrom(f: string, next: string) {
    forall i: nat :: i < |f| ==> !DelimiterAt(f + next, i)
  }

  /** `fields` with `seps[j]` written between `fields[j]` and `fields[j + 1]`. */
  function Interleave(fields: seq<string>, seps: seq<string>): string
    requires |seps| + 1 == |fields|
    decreases |seps|
  {
    if seps == [] then fields[0] else fields[0] + seps[0] + Interleave(fields[1..], seps[1..])
  }

  /**
   * `seps` are the leftmost non-overlapping matches of the delimiter between
   * `fields`: each is a three-character match, no match starts inside the
   * field before it, and the last field holds none.
   */
  ghost predicate CutAtMatches(fields: seq<string>, seps: seq<string>) {
    && |seps| + 1 == |fields|
    && (forall j :: 0 <= j < |seps| ==> |seps[j]| == 3 && DelimiterAt(seps[j], 0) && SeparatedFrom(fields[j], seps[j]))
    && NoDelimiter(fields[|fields| - 1])
  }

  /**
   * The fields of `s` cut at the leftmost non-overlapping matches of the
   * delimiter, scanning from position `i` with the current field starting at
   * `from` (the loop of `Pattern.split`).
   */
  function SplitFrom(s: string, from: nat, i: nat): (r: seq<string>)
    requires from <= i <= |s|
    requires forall k: nat :: from <= k < i ==> !DelimiterAt(s, k)
    ensures |r| >= 1
    ensures forall j :: 0 <= j < |r| ==> NoDelimiter(r[j])
    decreases |s| - i
  {
    if i + 3 > |s| then
      assert NoDelimiter(s[from..]) by {
        forall k: nat | k < |s| - from ensures !DelimiterAt(s[from..], k) {
          assert DelimiterAt(s[from..], k) == DelimiterAt(s, from + k);
        }
      }
      [s[from..]]
    else if DelimiterAt(s, i) then
      assert NoDelimiter(s[from..i]) by {
        forall k: nat | k < i - from ensures !DelimiterAt(s[from..i], k) {
          assert DelimiterAt(s[from..i], k) == DelimiterAt(s, from + k);
        }
      }
      [s[from..i]] + SplitFrom(s, i + 3, i + 3)
    else
      SplitFrom(s, from, i + 1)
  }

  /**
   * What the scan computes: its fields, with the matches it cut at written
   * back between them, rebuild the scanned text, and each cut is the
   * leftmost match after the previous one.
   */
  lemma {:induction false} SplitFromCuts(s: string, from: nat, i: nat)
    requires from <= i <= |s|
    requires forall k: nat :: from <= k < i ==> !DelimiterAt(s, k)
    ensures exists seps :: CutAtMatches(SplitFrom(s, from, i), seps) && Interleave(SplitFrom(s, from, i), seps) == s[from..]
    decreases |s| - i
  {
    var r := SplitFrom(s, from, i);
    if i + 3 > |s| {
      assert CutAtMatches(r, []) && Interleave(r, []) == s[from..];
    } else if DelimiterAt(s, i) {
      var field, sep := s[from..i], s[i..i + 3];
      assert SeparatedFrom(field, sep) by {
        forall k: nat | k < |field| ensures !DelimiterAt(field + sep, k) {
          assert field + sep == s[from..i + 3];
          assert DelimiterAt(field + sep, k) == DelimiterAt(s, from + k);
        }
      }
      var rest := SplitFrom(s, i + 3, i + 3);
      assert r == [field] + rest;
      SplitFromCuts(s, i + 3, i + 3);
      var restSeps :| CutAtMatches(rest, restSeps) && Interleave(rest, restSeps) == s[i + 3..];
      CutsCons(field, sep, rest, restSeps);
      assert s[from..] == field + sep + s[i + 3..];
    } else {
      SplitFromCuts(s, from, i + 1);
    }
  }

  /** One more field and the match after it, put in front of a cut. */
  lemma CutsCons(field: string, sep: string, rest: seq<string>, restSeps: seq<string>)
    requires CutAtMatches(rest, restSeps)
    requires |sep| == 3 && DelimiterAt(sep, 0) && SeparatedFrom(field, sep)
    ensures CutAtMatches([field] + rest, [sep] + restSeps)
    ensures Interleave([field] + rest, [sep] + restSeps) == field + sep + Interleave(rest, restSeps)
  {
    var r, seps := [field] + rest, [sep] + restSeps;
    assert r[1..] == rest && seps[1..] == restSeps;
    assert r[|r| - 1] == rest[|rest| - 1];
    forall j | 1 <= j < |seps| ensures |seps[j]| == 3 && DelimiterAt(seps[j], 0) && SeparatedFrom(r[j], seps[j]) {
      assert seps[j] == restSeps[j - 1] && r[j] == rest[j - 1];
    }
  }

  /** The empty strings at the end of `fields`, removed (`split` with limit 0). */
  function DropTrailingEmpty(fields: seq<string>): (r: seq<string>)
    ensures r <= fields
    ensures r == [] || r[|r| - 1] != ""
    ensures forall k :: |r| <= k < |fields| ==> fields[k] == ""
  {
    if fields != [] && fields[|fields| - 1] == "" then DropTrailingEmpty(fields[..|fields| - 1]) else fields
  }

  /**
   * `s.split("(\\s\\|\\s)")`: a string without any match comes back whole
   * (even when empty); otherwise the fields, less any trailing empty ones.
   */
  function Split(s: string): (r: seq<string>)
    ensures NoDelimiter(s) ==> r == [s]
    ensures r <= SplitFrom(s, 0, 0)
    ensures forall k :: |r| <= k < |SplitFrom(s, 0, 0)| ==> SplitFrom(s, 0, 0)[k] == ""
    ensures |SplitFrom(s, 0, 0)| > 1 ==> r == [] || r[|r| - 1] != ""
    ensures forall j :: 0 <= j < |r| ==> NoDelimiter(r[j])
  {
    assert NoDelimiter(s) ==> SplitFrom(s, 0, 0) == [s] by {
      if NoDelimiter(s) {
        SplitFromRest(s, 0, 0);
      }
    }
    var fields := SplitFrom(s, 0, 0);
    if |fields| == 1 then fields else DropTrailingEmpty(fields)
  }

  /** The canonical delimiter the save format writes. */
  const DELIMITER := " | "

  /** `fields` written one after another with `DELIMITER` between them. */
  function Join(fields: seq<string>): string {
    if |fields| == 0 then ""
    else if |fields| == 1 then fields[0]
    else fields[0] + DELIMITER + Join(fields[1..])
  }

  /** A field that can stand before `DELIMITER` without a match starting inside it. */
  predicate Separable(f: string) {
    SeparatedFrom(f, DELIMITER)
  }

  /**
   * Fields whose text survives being written by `Join` and read back: every
   * field but the last is `Separable`, and the last holds no delimiter and
   * ends with a character `trim` keeps.
   */
  predicate Joinable(fields: seq<string>) {
    && |fields| >= 1
    && (forall k :: 0 <= k < |fields| - 1 ==> Separable(fields[k]))
    && NoDelimiter(fields[|fields| - 1])
    && fields[|fields| - 1] != [] && !IsBlank(fields[|fields| - 1][|fields[|fields| - 1]| - 1])
  }

  /** `Joinable` fields whose line also starts with a character `trim` keeps. */
  predicate Storable(fields: seq<string>) {
    Joinable(fields) && fields[0] != [] && !IsBlank(fields[0][0])
  }

  lemma DelimiterAtPrefix(p: string, t: string, i: nat)
    requires i + 3 <= |p|
    ensures DelimiterAt(p + t, i) == DelimiterAt(p, i)
  {
  }

  lemma DelimiterAtShift(p: string, t: string, i: nat)
    ensures DelimiterAt(p + t, |p| + i) == DelimiterAt(t, i)
  {
    if i + 3 <= |t| {
      assert (p + t)[|p| + i] == t[i];
      assert (p + t)[|p| + i + 1] == t[i + 1];
      assert (p + t)[|p| + i + 2] == t[i + 2];
    }
  }

  /** Scanning a prefix `p` that has been consumed does not affect the fields of what follows it. */
  lemma {:induction false} SplitFromShift(p: string, t: string, a: nat, b: nat)
    requires a <= b <= |t|
    requires forall k: nat :: a <= k < b ==> !DelimiterAt(t, k)
    requires forall k: nat :: |p| + a <= k < |p| + b ==> !DelimiterAt(p + t, k)
    ensures SplitFrom(p + t, |p| + a, |p| + b) == SplitFrom(t, a, b)
    decreases |t| - b
  {
    var s := p + t;
    assert s[|p| + a..] == t[a..];
    if |p| + b + 3 > |s| {
    } else {
      DelimiterAtShift(p, t, b);
      if DelimiterAt(t, b) {
        assert s[|p| + a..|p| + b] == t[a..b];
        SplitFromShift(p, t, b + 3, b + 3);
      } else {
        SplitFromShift(p, t, a, b + 1);
      }
    }
  }

  /** With no match from `i` onward, the rest of `s` is one last field. */
  lemma {:induction false} SplitFromRest(s: string, from: nat, i: nat)
    requires from <= i <= |s|
    requires forall k: nat :: from <= k < i ==> !DelimiterAt(s, k)
    requires forall k: nat :: i <= k < |s| ==> !DelimiterAt(s, k)
    ensures SplitFrom(s, from, i) == [s[from..]]
    decreases |s| - i
  {
    if i + 3 <= |s| {
      SplitFromRest(s, from, i + 1);
    }
  }

  /** The first match at or after `i` is at `j`: the field ends there and scanning resumes after it. */
  lemma {:induction false} SplitFromNext(s: string, from: nat, i: nat, j: nat)
    requires from <= i <= j && DelimiterAt(s, j)
    requires forall k: nat :: from <= k < j ==> !DelimiterAt(s, k)
    ensures SplitFrom(s, from, i) == [s[from..j]] + SplitFrom(s, j + 3, j + 3)
    decreases j - i
  {
    if i < j {
      SplitFromNext(s, from, i + 1, j);
    }
  }

  /** Scanning a joined line yields its fields back. */
  lemma {:induction false} SplitFromJoin(fields: seq<string>)
    requires |fields| >= 1
    requires forall k :: 0 <= k < |fields| - 1 ==> Separable(fields[k])
    requires NoDelimiter(fields[|fields| - 1])
    ensures SplitFrom(Join(fields), 0, 0) == fields
    decreases |fields|
  {
    var s := Join(fields);
    if |fields| == 1 {
      SplitFromRest(s, 0, 0);
    } else {
      var f := fields[0];
      var rest := Join(fields[1..]);
      var p := f + DELIMITER;
      assert s == p + rest;
      assert Separable(f);
      forall k: nat | k < |f| ensures !DelimiterAt(s, k) {
        DelimiterAtPrefix(p, rest, k);
      }
      DelimiterAtPrefix(p, rest, |f|);
      SplitFromNext(s, 0, 0, |f|);
      assert s[0..|f|] == f;
      SplitFromShift(p, rest, 0, 0);
      SplitFromJoin(fields[1..]);
      assert fields == [f] + fields[1..];
    }
  }

  /** Join the fields of a save line and trim and split it again: the fields come back. */
  lemma {:induction false} SplitTrimJoin(fields: seq<string>)
    requires Storable(fields)
    ensures Split(Trim(Join(fields))) == fields
  {
    JoinEnds(fields);
    SplitFromJoin(fields);
  }

  /** A joined line starts with its first field and ends with its last one. */
  lemma {:induction false} JoinEnds(fields: seq<string>)
    requires |fields| >= 1
    ensures var s, last := Join(fields), fields[|fields| - 1];
      fields[0] <= s && |last| <= |s| && s[|s| - |last|..] == last
    decreases |fields|
  {
    if |fields| > 1 {
      JoinEnds(fields[1..]);
    }
  }

  /** ASCII `Character.toLowerCase`. */
  function LowerChar(c: char): (r: char)
    ensures 'A' <= c <= 'Z' ==> r as int == c as int + 32
    ensures !('A' <= c <= 'Z') ==> r == c
    ensures !('A' <= r <= 'Z')
  {
    if 'A' <= c <= 'Z' then (c as int + 32) as char else c
  }

  /** `String.toLowerCase`, restricted to ASCII letters. */
  function ToLower(s: string): (r: string)
    ensures |r| == |s|
    ensures forall i :: 0 <= i < |s| ==> r[i] == LowerChar(s[i])
  {
    if s == [] then [] else [LowerChar(s[0])] + ToLower(s[1..])
  }

  /** `keyword` appears in `s` starting at position `i`. */
  ghost predicate OccursAt(s: string, keyword: string, i: int) {
    0 <= i && i + |keyword| <= |s| && s[i..i + |keyword|] == keyword
  }

  /** `String.contains`: `keyword` is a contiguous, case-sensitive part of `s`. */
  function Contains(s: string, keyword: string): (r: bool)
    ensures r <==> exists i :: OccursAt(s, keyword, i)
  {
    if keyword <= s then
      assert OccursAt(s, keyword, 0);
      true
    else if s == [] then
      false
    else
      var r := Contains(s[1..], keyword);
      assert r ==> exists i :: OccursAt(s, keyword, i) by {
        if r {
          var i :| OccursAt(s[1..], keyword, i);
          assert s[1..][i..i + |keyword|] == s[i + 1..i + 1 + |keyword|];
          assert OccursAt(s, keyword, i + 1);
        }
      }
      assert (exists i :: OccursAt(s, keyword, i)) ==> r by {
        if exists i :: OccursAt(s, keyword, i) {
          var i :| OccursAt(s, keyword, i);
          assert i != 0;
          assert s[1..][i - 1..i - 1 + |keyword|] == s[i..i + |keyword|];
          assert OccursAt(s[1..], keyword, i - 1);
        }
      }
      r
  }

  /** A keyword whose first character is absent from `s` is not contained in it. */
  lemma ContainsNeedsFirstChar(s: string, keyword: string)
    requires keyword != [] && keyword[0] !in s
    ensures !Contains(s, keyword)
  {
    forall i ensures !OccursAt(s, keyword, i) {
      OccursAtStartsWith(s, keyword, i);
    }
  }

  lemma OccursAtStartsWith(s: string, keyword: string, i: int)
    requires keyword != []
    ensures OccursAt(s, keyword, i) ==> s[i] == keyword[0]
  {
    if OccursAt(s, keyword, i) {
      assert s[i..i + |keyword|][0] == keyword[0];
    }
  }
}
