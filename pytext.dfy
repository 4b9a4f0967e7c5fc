/**
 * The Python string operations the application relies on: `str.split()` with
 * no argument, `str.strip()` with and without a character set, `str.lower()`
 * and `str.join`. A string is a sequence of code points.
 */
module PyText {

  type String = seq<char>

  /** `str.isspace()` for one code point: the characters `split()` and `strip()` treat as whitespace. */
  predicate IsSpace(c: char)
  {
    var n := c as int;
    (0x09 <= n <= 0x0D) || (0x1C <= n <= 0x20) || n == 0x85 || n == 0xA0 || n == 0x1680
    || (0x2000 <= n <= 0x200A) || n == 0x2028 || n == 0x2029 || n == 0x202F || n == 0x205F
    || n == 0x3000
  }

  predicate NoSpace(w: String)
  {
    forall i :: 0 <= i < |w| ==> !IsSpace(w[i])
  }

  /** What `split()` can produce: a non-empty run of non-whitespace. */
  predicate IsWord(w: String)
  {
    w != [] && NoSpace(w)
  }

  /** Length of the leading run of non-whitespace. */
  function TokenEnd(s: String): (n: nat)
    ensures n <= |s|
    ensures NoSpace(s[..n])
    ensures n == |s| || IsSpace(s[n])
    ensures s != [] && !IsSpace(s[0]) ==> 0 < n
  {
    if s == [] || IsSpace(s[0]) then 0
    else
      var n := 1 + TokenEnd(s[1..]);
      assert forall i :: 1 <= i < n ==> s[..n][i] == s[1..][..n - 1][i - 1];
      n
  }

  /** `s.split()`: the maximal runs of non-whitespace, left to right. */
  function Split(s: String): (words: seq<String>)
    ensures forall k :: 0 <= k < |words| ==> IsWord(words[k])
    decreases |s|
  {
    if s == [] then []
    else if IsSpace(s[0]) then Split(s[1..])
    else
      var n := TokenEnd(s);
      [s[..n]] + Split(s[n..])
  }

  /** `sep.join(ws)`. */
  function Join(sep: String, ws: seq<String>): (r: String)
    ensures ws == [] ==> r == []
    ensures |ws| == 1 ==> r == ws[0]
    ensures ws != [] ==> ws[0] <= r
    ensures |ws| >= 2 ==> ws[0] + sep <= r
  {
    if ws == [] then []
    else if |ws| == 1 then ws[0]
    else ws[0] + sep + Join(sep, ws[1..])
  }

  /** Joining one more word appends the separator and that word: with the cases above, this fixes `Join` on every input. */
  lemma {:induction false} JoinSnoc(sep: String, ws: seq<String>, w: String)
    requires ws != []
    ensures Join(sep, ws + [w]) == Join(sep, ws) + sep + w
    decreases |ws|
  {
    assert (ws + [w])[0] == ws[0];
    assert (ws + [w])[1..] == ws[1..] + [w];
    if |ws| > 1 {
      JoinSnoc(sep, ws[1..], w);
    } else {
      assert ws[1..] + [w] == [w];
    }
  }

  lemma {:induction false} TokenEndOfWord(w: String, rest: String)
    requires IsWord(w)
    requires rest == [] || IsSpace(rest[0])
    ensures TokenEnd(w + rest) == |w|
    decreases |w|
  {
    var s := w + rest;
    assert s[0] == w[0];
    if |w| > 1 {
      assert s[1..] == w[1..] + rest;
      TokenEndOfWord(w[1..], rest);
    } else {
      assert s[1..] == rest;
    }
  }

  /** A word followed by whitespace (or nothing) is split off as a unit. */
  lemma SplitWordThen(w: String, rest: String)
    requires IsWord(w)
    requires rest == [] || IsSpace(rest[0])
    ensures Split(w + rest) == [w] + Split(rest)
  {
    var s := w + rest;
    TokenEndOfWord(w, rest);
    assert s[0] == w[0];
    assert s[..|w|] == w;
    assert s[|w|..] == rest;
  }

  /** `split()` inverts joining words with single spaces. */
  lemma {:induction false} SplitJoin(ws: seq<String>)
    requires forall k :: 0 <= k < |ws| ==> IsWord(ws[k])
    ensures Split(Join(" ", ws)) == ws
    decreases |ws|
  {
    if ws == [] {
    } else if |ws| == 1 {
      assert ws[0] + [] == ws[0];
      SplitWordThen(ws[0], []);
    } else {
      var tail := Join(" ", ws[1..]);
      assert Join(" ", ws) == ws[0] + (" " + tail);
      SplitWordThen(ws[0], " " + tail);
      assert (" " + tail)[1..] == tail;
      SplitJoin(ws[1..]);
    }
  }

  /** Some word of `ws` contains `c`. */
  predicate Occurs(ws: seq<String>, c: char)
  {
    exists k :: 0 <= k < |ws| && c in ws[k]
  }

  lemma OccursCons(w: String, ws: seq<String>, c: char)
    ensures Occurs([w] + ws, c) <==> c in w || Occurs(ws, c)
  {
    var all := [w] + ws;
    if Occurs(all, c) {
      var k :| 0 <= k < |all| && c in all[k];
      if k > 0 {
        assert all[k] == ws[k - 1];
      }
    }
    if Occurs(ws, c) {
      var k :| 0 <= k < |ws| && c in ws[k];
      assert all[k + 1] == ws[k];
    }
    if c in w {
      assert all[0] == w;
    }
  }

  /** The words of `split()` hold exactly the non-whitespace characters of the input. */
  lemma {:induction false} SplitKeepsNonSpace(s: String, c: char)
    requires !IsSpace(c)
    ensures Occurs(Split(s), c) <==> c in s
    decreases |s|
  {
    if s == [] {
    } else if IsSpace(s[0]) {
      SplitKeepsNonSpace(s[1..], c);
      assert Split(s) == Split(s[1..]);
      assert s == [s[0]] + s[1..] && s[0] != c;
    } else {
      var n := TokenEnd(s);
      assert Split(s) == [s[..n]] + Split(s[n..]);
      OccursCons(s[..n], Split(s[n..]), c);
      SplitKeepsNonSpace(s[n..], c);
      assert s == s[..n] + s[n..];
    }
  }

  /** Length of the leading run of characters `drop` accepts. */
  function LeadCount(s: String, drop: char -> bool): (n: nat)
    ensures n <= |s|
    ensures forall i :: 0 <= i < n ==> drop(s[i])
    ensures n == |s| || !drop(s[n])
  {
    if s == [] || !drop(s[0]) then 0
    else
      var n := 1 + LeadCount(s[1..], drop);
      assert forall i :: 1 <= i < n ==> s[i] == s[1..][i - 1];
      n
  }

  /** Length of the trailing run of characters `drop` accepts. */
  function TrailCount(s: String, drop: char -> bool): (n: nat)
    ensures n <= |s|
    ensures forall i :: |s| - n <= i < |s| ==> drop(s[i])
    ensures n == |s| || !drop(s[|s| - 1 - n])
  {
    if s == [] || !drop(s[|s| - 1]) then 0
    else 1 + TrailCount(s[..|s| - 1], drop)
  }

  /**
   * `r` is `s` with the longest run of characters `drop` accepts cut from each
   * end: it starts where the leading run ends, everything after it is dropped
   * too, and its last character is kept.
   */
  predicate StrippedSlice(s: String, r: String, drop: char -> bool)
  {
    var i := LeadCount(s, drop);
    i + |r| <= |s| && r == s[i..i + |r|]
    && (forall j :: 0 <= j < i ==> drop(s[j]))
    && (forall j :: i + |r| <= j < |s| ==> drop(s[j]))
    && (r == [] || !drop(r[|r| - 1]))
  }

  /** `s.strip(chars)` where `drop` tells the characters to strip: removed from both ends. */
  function StripWhere(s: String, drop: char -> bool): (r: String)
    ensures |r| <= |s|
    ensures r == [] || (!drop(r[0]) && !drop(r[|r| - 1]))
    ensures forall c :: c in r ==> c in s
    ensures StrippedSlice(s, r, drop)
  {
    var i := LeadCount(s, drop);
    var t := s[i..];
    var r := t[..|t| - TrailCount(t, drop)];
    assert r == s[i..i + |r|];
    assert forall c :: c in r ==> c in t;
    r
  }

  /** `s.strip()`: whitespace removed from both ends. */
  function StripSpace(s: String): (r: String)
    ensures |r| <= |s|
    ensures r == [] || (!IsSpace(r[0]) && !IsSpace(r[|r| - 1]))
    ensures StrippedSlice(s, r, IsSpace)
  {
    StripWhere(s, IsSpace)
  }

  /** A string strips to nothing exactly when it is all whitespace. */
  lemma BlankIffAllSpace(s: String)
    ensures StripSpace(s) == [] <==> forall i :: 0 <= i < |s| ==> IsSpace(s[i])
  {
    var r := StripSpace(s);
    var i := LeadCount(s, IsSpace);
    if r != [] {
      assert s[i] == r[0];
    }
  }

  /** `str.lower()` on one code point, for the ASCII letters. */
  function LowerChar(c: char): char
  {
    if 'A' <= c <= 'Z' then (c as int + 32) as char else c
  }

  predicate IsUpper(c: char)
  {
    'A' <= c <= 'Z'
  }

  /** `s.lower()`: same length, each upper-case letter replaced by its lower-case one, nothing else changed. */
  function Lower(s: String): (r: String)
    ensures |r| == |s|
    ensures forall i :: 0 <= i < |s| && IsUpper(s[i]) ==> r[i] as int == s[i] as int + 32
    ensures forall i :: 0 <= i < |r| ==> !IsUpper(r[i])
    ensures forall i :: 0 <= i < |r| && !IsUpper(s[i]) ==> r[i] == s[i]
  {
    seq(|s|, i requires 0 <= i < |s| => LowerChar(s[i]))
  }

  /** Lowering moves no whitespace: a character is whitespace after lowering iff it was before. */
  lemma LowerKeepsSpace(s: String)
    ensures forall i :: 0 <= i < |s| ==> (IsSpace(Lower(s)[i]) <==> IsSpace(s[i]))
  {
  }

  /** Lowering twice is lowering once. */
  lemma LowerIdempotent(s: String)
    ensures Lower(Lower(s)) == Lower(s)
  {
  }
}
