/** The handful of Python `str` operations the loaders use, with the facts the
    rest of the model needs about them. */
module Strings {

  /** `sep.join(parts)`. */
  function Join(sep: string, parts: seq<string>): string {
    if |parts| == 0 then ""
    else if |parts| == 1 then parts[0]
    else parts[0] + sep + Join(sep, parts[1..])
  }

  /** `s.split(c)` for a one-character separator: the pieces between the
      occurrences of `c`, empty pieces included. Joining them back gives `s`. */
  function Split(s: string, c: char): (parts: seq<string>)
    ensures |parts| >= 1
    ensures forall i :: 0 <= i < |parts| ==> c !in parts[i]
    ensures Join([c], parts) == s
    decreases |s|
  {
    if s == [] then [""]
    else
      var rest := Split(s[1..], c);
      if s[0] == c then
        [""] + rest
      else
        var parts := [[s[0]] + rest[0]] + rest[1..];
        assert |rest| > 1 ==> rest == [rest[0]] + rest[1..] && Join([c], rest) == rest[0] + [c] + Join([c], rest[1..]);
        assert parts[0] == [s[0]] + rest[0];
        assert parts[1..] == rest[1..];
        assert s == [s[0]] + s[1..];
        parts
  }

  /** Splitting at the first separator: what precedes it is the first piece. */
  lemma {:induction false} SplitAtFirst(a: string, c: char, b: string)
    requires c !in a
    ensures Split(a + [c] + b, c) == [a] + Split(b, c)
    decreases |a|
  {
    if a == [] {
      assert a + [c] + b == [c] + b;
      assert ([c] + b)[1..] == b;
    } else {
      assert (a + [c] + b)[1..] == a[1..] + [c] + b;
      assert (a + [c] + b)[0] == a[0];
      SplitAtFirst(a[1..], c, b);
      assert [a[0]] + a[1..] == a;
    }
  }

  /** A string without the separator splits into itself alone. */
  lemma {:induction false} SplitWithout(s: string, c: char)
    requires c !in s
    ensures Split(s, c) == [s]
    decreases |s|
  {
    if s != [] {
      SplitWithout(s[1..], c);
      assert [s[0]] + s[1..] == s;
    }
  }

  /** The last piece of a split is what follows the last separator. */
  lemma {:induction false} SplitLastPiece(a: string, c: char, b: string)
    requires c !in b
    ensures var parts := Split(a + [c] + b, c); |parts| >= 2 && parts[|parts| - 1] == b
    decreases |a|
  {
    var s := a + [c] + b;
    if a == [] {
      assert s == [c] + b && s[1..] == b;
      SplitWithout(b, c);
    } else {
      assert s[1..] == a[1..] + [c] + b;
      SplitLastPiece(a[1..], c, b);
      var rest := Split(s[1..], c);
      assert Split(s, c)[|Split(s, c)| - 1] == rest[|rest| - 1];
    }
  }

  /** `pat` occurs in `s` at position `i`. */
  predicate MatchAt(s: string, pat: string, i: int) {
    0 <= i && i + |pat| <= |s| && s[i..i + |pat|] == pat
  }

  /** `s.replace(pat, rep)`: every occurrence of `pat`, scanned left to right
      without overlap, replaced by `rep`. */
  function ReplaceAll(s: string, pat: string, rep: string): string
    requires pat != ""
    decreases |s|
  {
    if |s| < |pat| then s
    else if s[..|pat|] == pat then rep + ReplaceAll(s[|pat|..], pat, rep)
    else [s[0]] + ReplaceAll(s[1..], pat, rep)
  }

  /** Where `pat` does not start, the first character is copied. */
  lemma ReplaceAllCopiesHead(s: string, pat: string, rep: string)
    requires pat != "" && s != [] && !MatchAt(s, pat, 0)
    ensures ReplaceAll(s, pat, rep) == [s[0]] + ReplaceAll(s[1..], pat, rep)
  {
    if |s| < |pat| {
      assert [s[0]] + s[1..] == s;
    }
  }

  /** A prefix in which no occurrence of `pat` starts is copied unchanged. */
  lemma {:induction false} ReplaceAllSkips(x: string, y: string, pat: string, rep: string)
    requires pat != ""
    requires forall i :: 0 <= i < |x| ==> !MatchAt(x + y, pat, i)
    ensures ReplaceAll(x + y, pat, rep) == x + ReplaceAll(y, pat, rep)
    decreases |x|
  {
    if x != [] {
      var s := x + y;
      assert !MatchAt(s, pat, 0);
      ReplaceAllCopiesHead(s, pat, rep);
      assert s[1..] == x[1..] + y;
      forall i | 0 <= i < |x[1..]|
        ensures !MatchAt(x[1..] + y, pat, i)
      {
        assert !MatchAt(s, pat, i + 1);
        if i + |pat| <= |s[1..]| {
          assert s[1..][i..i + |pat|] == s[i + 1..i + 1 + |pat|];
        }
      }
      ReplaceAllSkips(x[1..], y, pat, rep);
      calc {
        ReplaceAll(s, pat, rep);
        [x[0]] + ReplaceAll(x[1..] + y, pat, rep);
        [x[0]] + (x[1..] + ReplaceAll(y, pat, rep));
        { assert [x[0]] + x[1..] == x; }
        x + ReplaceAll(y, pat, rep);
      }
    } else {
      assert x + y == y;
    }
  }

  /** A string in which `pat` does not occur is left unchanged. */
  lemma ReplaceAllNoMatch(s: string, pat: string, rep: string)
    requires pat != ""
    requires forall i :: 0 <= i < |s| ==> !MatchAt(s, pat, i)
    ensures ReplaceAll(s, pat, rep) == s
  {
    assert s + "" == s;
    ReplaceAllSkips(s, "", pat, rep);
  }

  /** `pat` cannot occur where one of its characters is missing. */
  lemma NoMatchWithout(s: string, pat: string, ch: char)
    requires ch in pat && ch !in s
    ensures forall i :: 0 <= i < |s| ==> !MatchAt(s, pat, i)
  {
    forall i | 0 <= i < |s|
      ensures !MatchAt(s, pat, i)
    {
      if i + |pat| <= |s| {
        var j :| 0 <= j < |pat| && pat[j] == ch;
        assert s[i..i + |pat|][j] == s[i + j];
        assert s[i + j] != ch;
      }
    }
  }

  /** A leading occurrence of `pat` is replaced and the scan resumes after it. */
  lemma ReplaceAllLeading(pat: string, y: string, rep: string)
    requires pat != ""
    ensures ReplaceAll(pat + y, pat, rep) == rep + ReplaceAll(y, pat, rep)
  {
    assert (pat + y)[..|pat|] == pat;
    assert (pat + y)[|pat|..] == y;
  }

  /** A string missing one of `pat`'s characters is left as it is. */
  lemma ReplaceAllAbsent(s: string, pat: string, rep: string, ch: char)
    requires ch in pat && ch !in s
    ensures ReplaceAll(s, pat, rep) == s
  {
    NoMatchWithout(s, pat, ch);
    ReplaceAllNoMatch(s, pat, rep);
  }

  /** A leading `pat` is removed, and nothing after it matches again. */
  lemma RemoveLeading(pat: string, y: string, ch: char)
    requires ch in pat && ch !in y
    ensures ReplaceAll(pat + y, pat, "") == y
  {
    ReplaceAllLeading(pat, y, "");
    ReplaceAllAbsent(y, pat, "", ch);
  }

  /** Every character of the result comes from the input or the replacement. */
  lemma {:induction false} ReplaceAllChars(s: string, pat: string, rep: string)
    requires pat != ""
    ensures forall ch :: ch in ReplaceAll(s, pat, rep) ==> ch in s || ch in rep
    decreases |s|
  {
    if |s| >= |pat| {
      if s[..|pat|] == pat {
        ReplaceAllChars(s[|pat|..], pat, rep);
        forall ch | ch in s[|pat|..] ensures ch in s {
          var i :| 0 <= i < |s[|pat|..]| && s[|pat|..][i] == ch;
          assert s[i + |pat|] == ch;
        }
      } else {
        ReplaceAllChars(s[1..], pat, rep);
        forall ch | ch in s[1..] ensures ch in s {
          var i :| 0 <= i < |s[1..]| && s[1..][i] == ch;
          assert s[i + 1] == ch;
        }
      }
    }
  }

  /** Replacing one character by another works position by position. */
  lemma {:induction false} ReplaceCharPointwise(s: string, c: char, d: char)
    ensures |ReplaceAll(s, [c], [d])| == |s|
    ensures forall i :: 0 <= i < |s| ==>
      ReplaceAll(s, [c], [d])[i] == (if s[i] == c then d else s[i])
    decreases |s|
  {
    if s != [] {
      ReplaceCharPointwise(s[1..], c, d);
      assert s[..1] == [s[0]];
    }
  }

  /** `s[:-1]`: everything but the last character; "" stays "". */
  function DropLast(s: string): string {
    if s == "" then "" else s[..|s| - 1]
  }

  /** `ch.lower()` for ASCII letters. */
  function LowerChar(ch: char): char {
    if 'A' <= ch <= 'Z' then (ch as int - 'A' as int + 'a' as int) as char else ch
  }

  /** `s.lower()` on ASCII text. */
  function Lower(s: string): string {
    seq(|s|, i requires 0 <= i < |s| => LowerChar(s[i]))
  }
}
