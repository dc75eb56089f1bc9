/** Go strings: the byte-wise order used wherever names are sorted, and strings.Split and strings.Fields. */
module Strings {

  predicate Leq(a: string, b: string) {
    a == [] || (b != [] && (a[0] < b[0] || (a[0] == b[0] && Leq(a[1..], b[1..]))))
  }

  lemma {:induction false} LeqTotal(a: string, b: string)
    ensures Leq(a, b) || Leq(b, a)
  {
    if a != [] && b != [] && a[0] == b[0] {
      LeqTotal(a[1..], b[1..]);
    }
  }

  lemma {:induction false} LeqAntisymmetric(a: string, b: string)
    requires Leq(a, b) && Leq(b, a)
    ensures a == b
  {
    if a != [] && b != [] {
      LeqAntisymmetric(a[1..], b[1..]);
      assert a == [a[0]] + a[1..] && b == [b[0]] + b[1..];
    }
  }

  lemma {:induction false} LeqTransitive(a: string, b: string, c: string)
    requires Leq(a, b) && Leq(b, c)
    ensures Leq(a, c)
  {
    if a != [] && a[0] == b[0] && b[0] == c[0] {
      LeqTransitive(a[1..], b[1..], c[1..]);
    }
  }

  /** At k the strings first differ, and a is the smaller there. */
  ghost predicate SmallerAt(a: string, b: string, k: nat) {
    k < |a| && k < |b| && a[..k] == b[..k] && a[k] < b[k]
  }

  lemma {:induction false} SmallerBehind(c: char, a: string, b: string, k: nat)
    ensures SmallerAt(a, b, k) <==> SmallerAt([c] + a, [c] + b, k + 1)
  {
    if k < |a| && k < |b| {
      assert ([c] + a)[..k + 1] == [c] + a[..k] && ([c] + b)[..k + 1] == [c] + b[..k];
      assert ([c] + a[..k])[1..] == a[..k] && ([c] + b[..k])[1..] == b[..k];
    }
  }

  /** The order: a beginning comes first, otherwise the first difference decides. */
  lemma {:induction false} LeqMeans(a: string, b: string)
    ensures Leq(a, b) <==> a <= b || exists k :: SmallerAt(a, b, k)
  {
    if a != [] && b != [] && a[0] == b[0] {
      LeqMeans(a[1..], b[1..]);
      assert a == [a[0]] + a[1..] && b == [b[0]] + b[1..];
      if k: nat :| SmallerAt(a, b, k) {
        SmallerBehind(a[0], a[1..], b[1..], k - 1);
      }
      if k: nat :| SmallerAt(a[1..], b[1..], k) {
        SmallerBehind(a[0], a[1..], b[1..], k);
      }
    } else if a != [] && b != [] && a[0] < b[0] {
      assert SmallerAt(a, b, 0);
    }
  }

  // ---------------------------------------------------------------------------
  // Splitting
  // ---------------------------------------------------------------------------

  /** Position of the first occurrence, or the length. */
  function IndexOf(s: string, c: char): (n: nat)
    ensures n <= |s| && (n < |s| ==> s[n] == c) && c !in s[..n]
  {
    if s == "" || s[0] == c then 0
    else
      var n := IndexOf(s[1..], c);
      assert s[..n + 1] == [s[0]] + s[1..][..n];
      n + 1
  }

  function Split(s: string, sep: char): (r: seq<string>)
    ensures r != []
    decreases |s|
  {
    var i := IndexOf(s, sep);
    if i == |s| then [s] else [s[..i]] + Split(s[i + 1..], sep)
  }

  /** A part ends at the first separator. */
  lemma {:induction false} SplitAt(a: string, sep: char, b: string)
    requires sep !in a
    ensures Split(a, sep) == [a] && Split(a + [sep] + b, sep) == [a] + Split(b, sep)
  {
    IndexOfNone(a, sep);
    IndexOfFirst(a, sep, b);
    var s := a + [sep] + b;
    assert s[..|a|] == a && s[|a| + 1..] == b;
  }

  /** unicode.IsSpace. */
  predicate IsSpace(c: char) {
    var n := c as int;
    || 9 <= n <= 13 || n == 32 || n == 0x85 || n == 0xa0 || n == 0x1680 || 0x2000 <= n <= 0x200a
    || n == 0x2028 || n == 0x2029 || n == 0x202f || n == 0x205f || n == 0x3000
  }

  function WordEnd(s: string): (n: nat)
    ensures n <= |s| && forall i :: 0 <= i < n ==> !IsSpace(s[i])
    ensures n < |s| ==> IsSpace(s[n])
  {
    if s == "" || IsSpace(s[0]) then 0 else 1 + WordEnd(s[1..])
  }

  /** The words between runs of white space. */
  function Fields(s: string): seq<string>
    decreases |s|
  {
    if s == "" then []
    else if IsSpace(s[0]) then Fields(s[1..])
    else
      var n := WordEnd(s);
      [s[..n]] + Fields(s[n..])
  }

  /** A white space character separates: the words on its two sides do not depend on each other. */
  lemma {:induction false} FieldsAcross(a: string, c: char, b: string)
    requires IsSpace(c)
    ensures Fields(a + [c] + b) == Fields(a) + Fields(b)
    decreases |a|
  {
    var s := a + [c] + b;
    if a == "" {
      assert s[1..] == b;
    } else if IsSpace(a[0]) {
      assert s[1..] == a[1..] + [c] + b;
      FieldsAcross(a[1..], c, b);
    } else {
      var n := WordEnd(a);
      WordEndUnique(s, n);
      assert s[..n] == a[..n] && s[n..] == a[n..] + [c] + b;
      FieldsAcross(a[n..], c, b);
      assert [a[..n]] + (Fields(a[n..]) + Fields(b)) == [a[..n]] + Fields(a[n..]) + Fields(b);
    }
  }

  /** White space alone holds no word, and text without any is one. */
  lemma {:induction false} FieldsOne(s: string)
    requires s != "" && forall i :: 0 <= i < |s| ==> !IsSpace(s[i])
    ensures Fields("") == [] && Fields(s) == [s]
  {
    assert WordEnd(s) == |s|;
    assert s[..|s|] == s && s[|s|..] == "";
  }

  lemma {:induction false} WordEndUnique(s: string, n: nat)
    requires n < |s| && IsSpace(s[n]) && forall i :: 0 <= i < n ==> !IsSpace(s[i])
    ensures WordEnd(s) == n
  {
    if n > 0 {
      WordEndUnique(s[1..], n - 1);
    }
  }

  // ---------------------------------------------------------------------------
  // Trimming
  // ---------------------------------------------------------------------------

  function TrimLeft(s: string): string {
    if s != "" && IsSpace(s[0]) then TrimLeft(s[1..]) else s
  }

  function TrimRight(s: string): string {
    if s != "" && IsSpace(s[|s| - 1]) then TrimRight(s[..|s| - 1]) else s
  }

  function TrimSpace(s: string): string {
    TrimRight(TrimLeft(s))
  }

  predicate IsQuote(c: char) {
    c == '"' || c == '\''
  }

  function TrimLeftQuotes(s: string): string {
    if s != "" && IsQuote(s[0]) then TrimLeftQuotes(s[1..]) else s
  }

  function TrimRightQuotes(s: string): string {
    if s != "" && IsQuote(s[|s| - 1]) then TrimRightQuotes(s[..|s| - 1]) else s
  }

  function TrimQuotes(s: string): string {
    TrimRightQuotes(TrimLeftQuotes(s))
  }

  function Spaces(n: nat): string {
    seq(n, _ => ' ')
  }

  lemma {:induction false} TrimSpaces(n: nat, s: string)
    requires s != "" && !IsSpace(s[0]) && !IsSpace(s[|s| - 1])
    ensures TrimSpace(Spaces(n) + s) == s
  {
    TrimLeftSpaces(n, s);
  }

  lemma {:induction false} TrimLeftSpaces(n: nat, s: string)
    requires s != "" && !IsSpace(s[0])
    ensures TrimLeft(Spaces(n) + s) == s
  {
    if n == 0 {
      assert Spaces(0) + s == s;
    } else {
      assert (Spaces(n) + s)[1..] == Spaces(n - 1) + s;
      TrimLeftSpaces(n - 1, s);
    }
  }

  ghost predicate AllSpace(s: string) {
    forall i :: 0 <= i < |s| ==> IsSpace(s[i])
  }

  ghost predicate AllQuotes(s: string) {
    forall i :: 0 <= i < |s| ==> s[i] == '"' || s[i] == '\''
  }

  /** White space around a text is dropped, and nothing else. */
  lemma {:induction false} TrimSpaceIs(a: string, t: string, b: string)
    requires AllSpace(a) && AllSpace(b)
    requires t == "" || (!IsSpace(t[0]) && !IsSpace(t[|t| - 1]))
    ensures TrimSpace(a + t + b) == t
  {
    if a != "" {
      assert (a + t + b)[1..] == a[1..] + t + b && a[0] == (a + t + b)[0];
      TrimSpaceIs(a[1..], t, b);
    } else if t == "" {
      assert a + t + b == b;
      TrimLeftAll(b);
    } else {
      assert a + t + b == t + b && (t + b)[0] == t[0];
      TrimRightAll(t, b);
    }
  }

  lemma {:induction false} TrimLeftAll(s: string)
    requires AllSpace(s)
    ensures TrimLeft(s) == ""
  {
    if s != "" {
      TrimLeftAll(s[1..]);
    }
  }

  lemma {:induction false} TrimRightAll(t: string, b: string)
    requires AllSpace(b) && t != "" && !IsSpace(t[|t| - 1])
    ensures TrimRight(t + b) == t
  {
    if b == "" {
      assert t + b == t;
    } else {
      assert (t + b)[..|t + b| - 1] == t + b[..|b| - 1];
      TrimRightAll(t, b[..|b| - 1]);
    }
  }

  /** Quotes around a text are dropped, of both kinds and however many. */
  lemma {:induction false} TrimQuotesIs(a: string, t: string, b: string)
    requires AllQuotes(a) && AllQuotes(b)
    requires t == "" || (t[0] !in {'"', '\''} && t[|t| - 1] !in {'"', '\''})
    ensures TrimQuotes(a + t + b) == t
  {
    if a != "" {
      assert (a + t + b)[1..] == a[1..] + t + b && a[0] == (a + t + b)[0];
      TrimQuotesIs(a[1..], t, b);
    } else if t == "" {
      assert a + t + b == b;
      TrimLeftQuotesAll(b);
    } else {
      assert a + t + b == t + b && (t + b)[0] == t[0];
      TrimRightQuotesAll(t, b);
    }
  }

  lemma {:induction false} TrimLeftQuotesAll(s: string)
    requires AllQuotes(s)
    ensures TrimLeftQuotes(s) == ""
  {
    if s != "" {
      TrimLeftQuotesAll(s[1..]);
    }
  }

  lemma {:induction false} TrimRightQuotesAll(t: string, b: string)
    requires AllQuotes(b) && t != "" && t[|t| - 1] !in {'"', '\''}
    ensures TrimRightQuotes(t + b) == t
  {
    if b == "" {
      assert t + b == t;
    } else {
      assert (t + b)[..|t + b| - 1] == t + b[..|b| - 1];
      TrimRightQuotesAll(t, b[..|b| - 1]);
    }
  }

  lemma {:induction false} IndexOfFirst(a: string, c: char, b: string)
    requires c !in a
    ensures IndexOf(a + [c] + b, c) == |a|
  {
    if a != "" {
      assert (a + [c] + b)[1..] == a[1..] + [c] + b;
      IndexOfFirst(a[1..], c, b);
    }
  }

  lemma {:induction false} IndexOfNone(a: string, c: char)
    requires c !in a
    ensures IndexOf(a, c) == |a|
  {
  }

  function JoinLines(lines: seq<string>): string
    requires lines != []
  {
    if |lines| == 1 then lines[0] else lines[0] + "\n" + JoinLines(lines[1..])
  }

  lemma {:induction false} SplitJoin(lines: seq<string>)
    requires lines != [] && forall i :: 0 <= i < |lines| ==> '\n' !in lines[i]
    ensures Split(JoinLines(lines), '\n') == lines
  {
    if |lines| == 1 {
      IndexOfNone(lines[0], '\n');
    } else {
      var tail := JoinLines(lines[1..]);
      var s := lines[0] + "\n" + tail;
      IndexOfFirst(lines[0], '\n', tail);
      assert s == lines[0] + ['\n'] + tail;
      assert s[..|lines[0]|] == lines[0] && s[|lines[0]| + 1..] == tail;
      SplitJoin(lines[1..]);
      assert [lines[0]] + lines[1..] == lines;
    }
  }
}
