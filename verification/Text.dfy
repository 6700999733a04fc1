/** The string operations the file editors rely on: splitting, joining, trimming and searching. */
module Text {
  import opened Sequences

  const NEWLINE: char := '\n'

  /** What reading a file gives when a missing one reads as empty. */
  function Content(file: Option<string>): string { if file.Some? then file.value else "" }

  // ---------- Split and join ----------

  /** The parts of s between separators; always at least one part, as with strings.Split. */
  function Split(s: string, sep: char): (parts: seq<string>)
    ensures |parts| >= 1
    ensures forall p | p in parts :: sep !in p
  {
    if s == "" then [""]
    else if s[0] == sep then [""] + Split(s[1..], sep)
    else
      var rest := Split(s[1..], sep);
      [[s[0]] + rest[0]] + rest[1..]
  }

  function Join(parts: seq<string>, sep: char): string {
    if parts == [] then ""
    else if |parts| == 1 then parts[0]
    else parts[0] + [sep] + Join(parts[1..], sep)
  }

  function SplitAll(parts: seq<string>, sep: char): seq<string> {
    if parts == [] then [] else Split(parts[0], sep) + SplitAll(parts[1..], sep)
  }

  ghost predicate AllWithout(parts: seq<string>, sep: char) {
    forall p | p in parts :: sep !in p
  }

  lemma {:induction false} SplitNoSeparator(s: string, sep: char)
    requires sep !in s
    ensures Split(s, sep) == [s]
  {
    if s != "" {
      assert s[0] in s && s == [s[0]] + s[1..];
      SplitNoSeparator(s[1..], sep);
    }
  }

  lemma {:induction false} SplitConcat(a: string, sep: char, b: string)
    ensures Split(a + [sep] + b, sep) == Split(a, sep) + Split(b, sep)
  {
    if a == "" {
      assert (a + [sep] + b)[1..] == b;
    } else {
      assert (a + [sep] + b)[1..] == a[1..] + [sep] + b;
      SplitConcat(a[1..], sep, b);
    }
  }

  /** Text without separators goes to the last part. */
  lemma {:induction false} SplitAppend(a: string, b: string, sep: char)
    requires sep !in b
    ensures var parts := Split(a, sep);
            Split(a + b, sep) == parts[..|parts| - 1] + [parts[|parts| - 1] + b]
  {
    var parts := Split(a, sep);
    if a == "" {
      assert a + b == b;
      SplitNoSeparator(b, sep);
    } else {
      assert (a + b)[0] == a[0] && (a + b)[1..] == a[1..] + b;
      SplitAppend(a[1..], b, sep);
      var rest, more := Split(a[1..], sep), Split(a[1..] + b, sep);
      var n := |rest|;
      if a[0] == sep {
        assert parts[..n] == [""] + rest[..n - 1];
      } else if n == 1 {
        assert [a[0]] + (rest[0] + b) == parts[0] + b;
      } else {
        assert more[0] == rest[0] && more[1..] == rest[1..n - 1] + [rest[n - 1] + b];
        assert parts[..n - 1] == [parts[0]] + rest[1..n - 1];
      }
    }
  }

  /** The last part is empty exactly when there is no text or it ends in a separator. */
  lemma {:induction false} LastPartEmptyIff(s: string, sep: char)
    ensures var parts := Split(s, sep); parts[|parts| - 1] == "" <==> s == "" || s[|s| - 1] == sep
  {
    if s != "" {
      LastPartEmptyIff(s[1..], sep);
      var rest := Split(s[1..], sep);
      if |s| > 1 { assert s[1..][|s| - 2] == s[|s| - 1]; }
      if s[0] == sep {
        assert ([""] + rest)[|rest|] == rest[|rest| - 1];
      } else if |rest| > 1 {
        assert ([[s[0]] + rest[0]] + rest[1..])[|rest| - 1] == rest[|rest| - 1];
      }
    }
  }

  lemma {:induction false} JoinSplit(s: string, sep: char)
    ensures Join(Split(s, sep), sep) == s
  {
    if s != "" {
      JoinSplit(s[1..], sep);
      var rest := Split(s[1..], sep);
      if s[0] == sep {
        assert ([""] + rest)[1..] == rest;
      } else {
        var parts := [[s[0]] + rest[0]] + rest[1..];
        assert parts[1..] == rest[1..];
        assert s == [s[0]] + s[1..];
      }
    }
  }

  /** Joining non-empty lists of lines and splitting again splits each part on its own. */
  lemma {:induction false} SplitJoinAll(parts: seq<string>, sep: char)
    requires parts != []
    ensures Split(Join(parts, sep), sep) == SplitAll(parts, sep)
  {
    if |parts| == 1 {
      assert SplitAll(parts[1..], sep) == [];
    } else {
      SplitJoinAll(parts[1..], sep);
      SplitConcat(parts[0], sep, Join(parts[1..], sep));
    }
  }

  lemma {:induction false} SplitAllSame(parts: seq<string>, sep: char)
    requires AllWithout(parts, sep)
    ensures SplitAll(parts, sep) == parts
  {
    if parts != [] {
      assert parts[0] in parts;
      SplitNoSeparator(parts[0], sep);
      SplitAllSame(parts[1..], sep);
    }
  }

  lemma SplitJoin(parts: seq<string>, sep: char)
    requires parts != [] && AllWithout(parts, sep)
    ensures Split(Join(parts, sep), sep) == parts
  {
    SplitJoinAll(parts, sep);
    SplitAllSame(parts, sep);
  }

  lemma {:induction false} SplitAllConcat(a: seq<string>, b: seq<string>, sep: char)
    ensures SplitAll(a + b, sep) == SplitAll(a, sep) + SplitAll(b, sep)
  {
    if a == [] {
      assert a + b == b;
    } else {
      assert (a + b)[1..] == a[1..] + b;
      SplitAllConcat(a[1..], b, sep);
    }
  }

  // ---------- Newline-terminated lines ----------

  function Terminated(lines: seq<string>): string {
    if lines == [] then "" else lines[0] + [NEWLINE] + Terminated(lines[1..])
  }

  lemma {:induction false} TerminatedConcat(a: seq<string>, b: seq<string>)
    ensures Terminated(a + b) == Terminated(a) + Terminated(b)
  {
    if a == [] {
      assert a + b == b;
    } else {
      assert (a + b)[1..] == a[1..] + b;
      TerminatedConcat(a[1..], b);
    }
  }

  lemma {:induction false} TerminatedIsJoined(lines: seq<string>)
    ensures Terminated(lines) == Join(lines, NEWLINE) + if lines == [] then "" else [NEWLINE]
  {
    if |lines| > 1 {
      TerminatedIsJoined(lines[1..]);
    } else if |lines| == 1 {
      assert lines[1..] == [];
    }
  }

  lemma {:induction false} SplitTerminated(lines: seq<string>)
    ensures Split(Terminated(lines), NEWLINE) == SplitAll(lines, NEWLINE) + [""]
  {
    if lines != [] {
      SplitTerminated(lines[1..]);
      SplitConcat(lines[0], NEWLINE, Terminated(lines[1..]));
    }
  }

  // ---------- Trimming ----------

  /** The ASCII white space of strings.TrimSpace: blank, tab, line feed, vertical tab, form feed, return. */
  predicate IsSpace(c: char) { c == ' ' || '\t' <= c <= '\r' }

  function TrimLeft(s: string): string {
    if s != "" && IsSpace(s[0]) then TrimLeft(s[1..]) else s
  }

  function TrimRight(s: string): string {
    if s != "" && IsSpace(s[|s| - 1]) then TrimRight(s[..|s| - 1]) else s
  }

  function TrimSpace(s: string): string { TrimRight(TrimLeft(s)) }

  /** TrimRight cuts a suffix of blanks and leaves no blank at the end. */
  lemma {:induction false} TrimRightCuts(s: string)
    ensures TrimRight(s) <= s
    ensures forall i | |TrimRight(s)| <= i < |s| :: IsSpace(s[i])
    ensures TrimRight(s) != "" ==> !IsSpace(TrimRight(s)[|TrimRight(s)| - 1])
  {
    if s != "" && IsSpace(s[|s| - 1]) { TrimRightCuts(s[..|s| - 1]); }
  }

  lemma {:induction false} TrimRightAppendBlank(s: string, c: char)
    requires IsSpace(c)
    ensures TrimRight(s + [c]) == TrimRight(s)
  {
    assert (s + [c])[..|s|] == s;
  }

  predicate AllBlank(s: string) { forall i | 0 <= i < |s| :: IsSpace(s[i]) }

  /** No blank at either end. */
  predicate IsTrimmed(s: string) { s == "" || (!IsSpace(s[0]) && !IsSpace(s[|s| - 1])) }

  lemma {:induction false} TrimLeftBlanks(a: string, s: string)
    requires AllBlank(a)
    ensures TrimLeft(a + s) == TrimLeft(s)
  {
    if a == "" {
      assert a + s == s;
    } else {
      assert (a + s)[0] == a[0] && (a + s)[1..] == a[1..] + s;
      TrimLeftBlanks(a[1..], s);
    }
  }

  lemma {:induction false} TrimRightBlanks(s: string, b: string)
    requires AllBlank(b)
    ensures TrimRight(s + b) == TrimRight(s)
  {
    if b == "" {
      assert s + b == s;
    } else {
      var front := b[..|b| - 1];
      assert (s + b)[|s + b| - 1] == b[|b| - 1] && (s + b)[..|s + b| - 1] == s + front;
      TrimRightBlanks(s, front);
    }
  }

  /** Trimming takes off the blanks around a text that has none at its ends, and nothing else. */
  lemma TrimSurrounded(a: string, s: string, b: string)
    requires AllBlank(a) && IsTrimmed(s) && AllBlank(b)
    ensures TrimSpace(a + s + b) == s
  {
    assert a + s + b == a + (s + b);
    TrimLeftBlanks(a, s + b);
    if s == "" {
      TrimLeftBlanks(b, "");
      assert s + b == b + "";
    } else {
      assert (s + b)[0] == s[0];
      assert TrimLeft(s + b) == s + b;
      TrimRightBlanks(s, b);
      assert TrimRight(s) == s;
    }
  }

  // ---------- Searching ----------

  predicate OccursAt(s: string, p: string, i: nat) {
    i + |p| <= |s| && s[i..i + |p|] == p
  }

  lemma OccursByChar(s: string, p: string, i: nat)
    ensures OccursAt(s, p, i) <==> i + |p| <= |s| && forall k | 0 <= k < |p| :: s[i + k] == p[k]
  {
    if OccursAt(s, p, i) {
      forall k | 0 <= k < |p| ensures s[i + k] == p[k] { assert s[i..i + |p|][k] == s[i + k]; }
    }
  }

  lemma OccursInTail(s: string, p: string)
    requires s != ""
    ensures forall j: nat :: OccursAt(s, p, j + 1) <==> OccursAt(s[1..], p, j)
  {
    forall j: nat ensures OccursAt(s, p, j + 1) <==> OccursAt(s[1..], p, j) {
      if j + 1 + |p| <= |s| { assert s[1..][j..j + |p|] == s[j + 1..j + 1 + |p|]; }
    }
  }

  /** Where p first occurs in s, or -1. */
  function Index(s: string, p: string): (i: int)
    ensures i == -1 || (0 <= i && OccursAt(s, p, i))
    ensures forall j: nat | OccursAt(s, p, j) :: 0 <= i <= j
  {
    if |s| < |p| then -1
    else if p <= s then assert OccursAt(s, p, 0); 0
    else
      OccursInTail(s, p);
      var k := Index(s[1..], p);
      assert forall j: nat | OccursAt(s, p, j) :: j > 0 && OccursAt(s[1..], p, j - 1);
      if k < 0 then -1 else k + 1
  }

  predicate Contains(s: string, p: string) { Index(s, p) >= 0 }

  predicate HasPrefix(s: string, p: string) { p <= s }

  predicate HasSuffix(s: string, p: string) { |p| <= |s| && s[|s| - |p|..] == p }

  /** s with the first occurrence of p removed, as strings.Replace(s, p, "", 1). */
  function RemoveFirst(s: string, p: string): string {
    var i := Index(s, p);
    if i < 0 then s else s[..i] + s[i + |p|..]
  }

  /** The text of s before the first c, or all of s. */
  function Before(s: string, c: char): (r: string)
    ensures r <= s && c !in r
    ensures r == s || s[|r|] == c
  {
    if s == "" || s[0] == c then "" else [s[0]] + Before(s[1..], c)
  }

  lemma {:induction false} BeforeIsFirst(s: string, c: char, n: nat)
    requires n <= |s| && c !in s[..n] && (n == |s| || s[n] == c)
    ensures Before(s, c) == s[..n]
  {
    if n > 0 {
      assert s[..n][0] == s[0];
      assert s[1..][..n - 1] == s[..n][1..];
      BeforeIsFirst(s[1..], c, n - 1);
    }
  }

  /** Text found in a piece of s is found in s. */
  lemma ContainsInPart(s: string, from: nat, to: nat, p: string)
    requires from <= to <= |s| && Contains(s[from..to], p)
    ensures Contains(s, p)
  {
    var i := Index(s[from..to], p);
    var part := s[from..to];
    assert OccursAt(part, p, i);
    forall k | 0 <= k < |p| ensures s[from + i..from + i + |p|][k] == p[k] {
      assert p[k] == part[i..i + |p|][k] == part[i + k] == s[from + i + k];
    }
    assert OccursAt(s, p, from + i);
  }
}
