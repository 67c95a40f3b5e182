/** String rules the site relies on, restricted to ASCII: `toLowerCase`,
    `trim`, `includes`, `startsWith`, `split(sep).pop()`, `join` and the
    decimal rendering of a non-negative integer. Non-ASCII characters are
    left untouched by `Lower` and never count as white space. */
module Text {

  predicate IsUpper(c: char) { 'A' <= c <= 'Z' }

  /** ASCII lower-casing of one character. */
  function LowerChar(c: char): char
  {
    if IsUpper(c) then (c as int + 32) as char else c
  }

  /** ASCII lower-casing of a string, character by character. */
  function Lower(s: string): (r: string)
    ensures |r| == |s|
  {
    seq(|s|, i requires 0 <= i < |s| => LowerChar(s[i]))
  }

  /** The ASCII characters `trim` removes: space, tab, line feed, vertical
      tab, form feed and carriage return. */
  predicate IsSpace(c: char) { c == ' ' || '\t' <= c <= '\r' }

  /** A string made of white space only (the empty string included). */
  predicate Blank(s: string) { forall i :: 0 <= i < |s| ==> IsSpace(s[i]) }

  /** `t` occurs in `s` starting at index `i`. */
  predicate OccursAt(s: string, t: string, i: int)
  {
    0 <= i && i + |t| <= |s| && s[i..i + |t|] == t
  }

  /** `s.includes(t)`. */
  predicate Contains(s: string, t: string)
  {
    exists i :: 0 <= i <= |s| - |t| && OccursAt(s, t, i)
  }

  /** `s.startsWith(p)`. */
  predicate StartsWith(s: string, p: string)
  {
    |p| <= |s| && s[..|p|] == p
  }

  /** `s.trimStart()`: the suffix left after dropping leading white space. */
  function TrimStart(s: string): (r: string)
    ensures |r| <= |s| && r == s[|s| - |r|..]
    ensures Blank(s[..|s| - |r|])
    ensures |r| > 0 ==> !IsSpace(r[0])
  {
    if |s| > 0 && IsSpace(s[0]) then TrimStart(s[1..]) else s
  }

  /** `s.trimEnd()`: the prefix left after dropping trailing white space. */
  function TrimEnd(s: string): (r: string)
    ensures |r| <= |s| && r == s[..|r|]
    ensures Blank(s[|r|..])
    ensures |r| > 0 ==> !IsSpace(r[|r| - 1])
  {
    if |s| > 0 && IsSpace(s[|s| - 1]) then TrimEnd(s[..|s| - 1]) else s
  }

  /** `s.trim()`. */
  function Trim(s: string): string
  {
    TrimEnd(TrimStart(s))
  }

  /** `s.split(sep).pop()`: the text after the last `sep`, or all of `s`
      when `sep` does not occur in it. */
  function AfterLast(s: string, sep: char): (r: string)
    ensures sep !in r
    ensures |r| <= |s| && r == s[|s| - |r|..]
    ensures |r| < |s| ==> s[|s| - |r| - 1] == sep
  {
    if |s| == 0 then []
    else if s[|s| - 1] == sep then []
    else AfterLast(s[..|s| - 1], sep) + [s[|s| - 1]]
  }

  /** The decimal digits of `n`, as a template literal renders a number. */
  function Decimal(n: nat): (r: string)
    ensures |r| > 0
    ensures forall i :: 0 <= i < |r| ==> '0' <= r[i] <= '9'
  {
    var d := ['0' + (n % 10) as char];
    if n < 10 then d else Decimal(n / 10) + d
  }

  /** `xs.join(sep)`. */
  function Join(xs: seq<string>, sep: string): string
  {
    if |xs| == 0 then ""
    else if |xs| == 1 then xs[0]
    else xs[0] + sep + Join(xs[1..], sep)
  }

  /** The index at which the `i`-th piece starts in `Join(xs, sep)`. */
  function PieceStart(xs: seq<string>, sep: string, i: nat): nat
    requires i <= |xs|
  {
    if i == 0 then 0 else PieceStart(xs, sep, i - 1) + |xs[i - 1]| + |sep|
  }

  // ---------------------------------------------------------------------
  // Lemmas

  /** Lower-casing commutes with taking a slice. */
  lemma LowerSlice(s: string, i: int, j: int)
    requires 0 <= i <= j <= |s|
    ensures Lower(s)[i..j] == Lower(s[i..j])
  {
  }

  /** Every string contains the empty string (at index 0). */
  lemma ContainsEmpty(s: string)
    ensures Contains(s, "")
  {
    assert OccursAt(s, "", 0);
  }

  /** An occurrence survives lower-casing of both strings. */
  lemma ContainsLower(s: string, t: string)
    requires Contains(s, t)
    ensures Contains(Lower(s), Lower(t))
  {
    var i :| 0 <= i <= |s| - |t| && OccursAt(s, t, i);
    LowerSlice(s, i, i + |t|);
    assert OccursAt(Lower(s), Lower(t), i);
  }

  /** Substring containment is transitive. */
  lemma ContainsTransitive(a: string, b: string, c: string)
    requires Contains(a, b) && Contains(b, c)
    ensures Contains(a, c)
  {
    var i :| 0 <= i <= |a| - |b| && OccursAt(a, b, i);
    var j :| 0 <= j <= |b| - |c| && OccursAt(b, c, j);
    forall k | 0 <= k < |c|
      ensures a[i + j + k] == c[k]
    {
      assert c[k] == b[j + k];
      assert b[j + k] == a[i + j + k];
    }
    assert a[i + j..i + j + |c|] == c;
    assert OccursAt(a, c, i + j);
  }

  /** `trim()` yields the empty string exactly for blank strings. */
  lemma TrimEmptyIffBlank(s: string)
    ensures Trim(s) == "" <==> Blank(s)
  {
    var t := TrimStart(s);
    if !Blank(s) {
      var k :| 0 <= k < |s| && !IsSpace(s[k]);
      assert t[k - (|s| - |t|)] == s[k];
      assert t[0..] == t;
    }
  }

  /** Regrouping a concatenation of four strings. */
  lemma Regroup(a: string, b: string, c: string, d: string)
    ensures a + ((b + c) + d) == ((a + b) + c) + d
  {
  }

  /** A string starts with every prefix it was built from. */
  lemma StartsWithConcat(p: string, s: string)
    ensures StartsWith(p + s, p)
  {
    assert (p + s)[..|p|] == p;
  }

  /** Each piece of a join sits at its `PieceStart`. */
  lemma {:induction false} JoinPiece(xs: seq<string>, sep: string, i: nat)
    requires i < |xs|
    ensures PieceStart(xs, sep, i) + |xs[i]| <= |Join(xs, sep)|
    ensures Join(xs, sep)[PieceStart(xs, sep, i)..PieceStart(xs, sep, i) + |xs[i]|] == xs[i]
  {
    if i == 0 {
    } else {
      JoinPiece(xs[1..], sep, i - 1);
      ShiftStart(xs, sep, i);
      var j := Join(xs, sep);
      var tail := Join(xs[1..], sep);
      assert j == xs[0] + sep + tail;
      var off := |xs[0]| + |sep|;
      var p := PieceStart(xs[1..], sep, i - 1);
      assert j[off + p..off + p + |xs[i]|] == tail[p..p + |xs[i]|];
    }
  }

  /** Between the `i`-th and the next piece of a join lies one separator. */
  lemma {:induction false} JoinSeparator(xs: seq<string>, sep: string, i: nat)
    requires i + 1 < |xs|
    ensures PieceStart(xs, sep, i + 1) <= |Join(xs, sep)|
    ensures Join(xs, sep)[PieceStart(xs, sep, i) + |xs[i]|..PieceStart(xs, sep, i + 1)] == sep
  {
    var j := Join(xs, sep);
    var tail := Join(xs[1..], sep);
    assert j == xs[0] + sep + tail;
    if i > 0 {
      JoinSeparator(xs[1..], sep, i - 1);
      ShiftStart(xs, sep, i);
      ShiftStart(xs, sep, i + 1);
      var off := |xs[0]| + |sep|;
      var lo := PieceStart(xs[1..], sep, i - 1) + |xs[i]|;
      var hi := PieceStart(xs[1..], sep, i);
      assert j[off + lo..off + hi] == tail[lo..hi];
    }
  }

  /** A join of `n` pieces is as long as the pieces plus `n - 1` separators. */
  lemma {:induction false} JoinLength(xs: seq<string>, sep: string)
    requires |xs| > 0
    ensures |Join(xs, sep)| + |sep| == PieceStart(xs, sep, |xs|)
  {
    if |xs| > 1 {
      JoinLength(xs[1..], sep);
      ShiftStart(xs, sep, |xs|);
    }
  }

  /** The layout of a join: the `i`-th piece at its start, followed by a
      separator, or by the end of the string for the last piece. */
  lemma JoinLayout(xs: seq<string>, sep: string, i: nat)
    requires i < |xs|
    ensures var s := Join(xs, sep);
      var at := PieceStart(xs, sep, i);
      var end := at + |xs[i]|;
      && end <= |s| && s[at..end] == xs[i]
      && (i + 1 < |xs| ==> end + |sep| <= |s| && s[end..end + |sep|] == sep)
      && (i + 1 == |xs| ==> end == |s|)
  {
    JoinPiece(xs, sep, i);
    if i + 1 < |xs| {
      JoinSeparator(xs, sep, i);
    } else {
      JoinLength(xs, sep);
    }
  }

  /** Start indices in the tail of a join are shifted by the first piece and
      one separator. */
  lemma {:induction false} ShiftStart(xs: seq<string>, sep: string, i: nat)
    requires 1 <= i <= |xs|
    ensures PieceStart(xs, sep, i) == |xs[0]| + |sep| + PieceStart(xs[1..], sep, i - 1)
  {
    if i == 1 {
    } else {
      ShiftStart(xs, sep, i - 1);
    }
  }
}
