/**
 * The local feedback heuristic: fallback_feedback in app.py.
 *
 * Both answers are split on whitespace; words longer than three characters
 * (measured before any stripping) are lower-cased and stripped of `.`, `,`,
 * `(` and `)` at both ends. The expected words the user did not use are the
 * missed keywords, of which at most five are shown. The source takes them in
 * the iteration order of a Python set, which is unspecified; this model lists
 * them in order of first occurrence in the expected answer, and its contracts
 * speak only of membership, distinctness and number.
 */
module Feedback {
  import opened PyText

  /** The characters `strip(".,()")` removes. */
  predicate IsStripped(c: char)
  {
    c == '.' || c == ',' || c == '(' || c == ')'
  }

  /** `w.lower().strip(".,()")`. */
  function Normalize(w: String): (r: String)
    ensures |r| <= |w|
    ensures forall c :: c in r ==> !IsUpper(c)
    ensures StrippedSlice(Lower(w), r, IsStripped)
  {
    StripWhere(Lower(w), IsStripped)
  }

  /** Normalizing a word without whitespace leaves none. */
  lemma NormalizeNoSpace(w: String)
    requires NoSpace(w)
    ensures NoSpace(Normalize(w))
  {
    var low := Lower(w);
    var r := Normalize(w);
    LowerKeepsSpace(w);
    assert forall c :: c in low ==> !IsSpace(c);
    assert forall i :: 0 <= i < |r| ==> r[i] in low;
  }

  /** Word `v` survives the length filter and normalizes to `x`. */
  predicate Yields(v: String, x: String)
  {
    |v| > 3 && Normalize(v) == x
  }

  /** `[f(w) for w in words if len(w) > 3]`. */
  function MapLong(words: seq<String>, f: String -> String): (r: seq<String>)
    ensures |r| <= |words|
    ensures forall v :: v in words && |v| > 3 ==> f(v) in r
  {
    if words == [] then []
    else
      var rest := MapLong(words[1..], f);
      assert words == [words[0]] + words[1..];
      if |words[0]| > 3 then [f(words[0])] + rest else rest
  }

  /** Every element of `MapLong(words, f)` is the image of a long word. */
  lemma {:induction false} MapLongOrigin(words: seq<String>, f: String -> String, x: String)
    requires x in MapLong(words, f)
    ensures exists v :: v in words && |v| > 3 && f(v) == x
    decreases |words|
  {
    assert words == [words[0]] + words[1..];
    if x in MapLong(words[1..], f) {
      MapLongOrigin(words[1..], f, x);
      var v :| v in words[1..] && |v| > 3 && f(v) == x;
      assert v in words;
    } else {
      assert words[0] in words;
    }
  }

  /** `[w.lower().strip(".,()") for w in words if len(w) > 3]`. */
  function Kept(words: seq<String>): (r: seq<String>)
    ensures forall v :: v in words && |v| > 3 ==> Normalize(v) in r
  {
    MapLong(words, Normalize)
  }

  /** Every kept word is the normalization of a long word. */
  lemma KeptOrigin(words: seq<String>, x: String)
    requires x in Kept(words)
    ensures exists v :: v in words && Yields(v, x)
  {
    MapLongOrigin(words, Normalize, x);
  }

  /** A sequence has at least as many elements as its set. */
  lemma {:induction false} SetOfSeqCard(s: seq<String>)
    ensures |set x | x in s| <= |s|
  {
    if s != [] {
      var init := s[..|s| - 1];
      SetOfSeqCard(init);
      assert s == init + [s[|s| - 1]];
      assert (set x | x in s) == (set x | x in init) + {s[|s| - 1]};
    }
  }

  /** The set of normalized long words of an answer: at most one per word of the answer. */
  function WordSet(text: String): (r: set<String>)
    ensures |r| <= |Split(text)|
  {
    var kept := Kept(Split(text));
    SetOfSeqCard(kept);
    set x | x in kept
  }

  /** `set([w.lower().strip(".,()") for w in text.split() if len(w) > 3])`, membership spelled out. */
  lemma WordSetMembers(text: String, x: String)
    ensures x in WordSet(text) <==> exists v :: v in Split(text) && Yields(v, x)
  {
    if exists v :: v in Split(text) && Yields(v, x) {
      var v :| v in Split(text) && Yields(v, x);
      assert Normalize(v) in Kept(Split(text));
    }
    if x in WordSet(text) {
      KeptOrigin(Split(text), x);
    }
  }

  /** Expected words absent from the user's answer: `exp_words - user_words`. */
  function MissedSet(expected: String, user: String): (r: set<String>)
    ensures r <= WordSet(expected) && r !! WordSet(user)
    ensures WordSet(expected) <= r + WordSet(user)
  {
    WordSet(expected) - WordSet(user)
  }

  predicate Distinct<T(==)>(s: seq<T>)
  {
    forall i, j :: 0 <= i < j < |s| ==> s[i] != s[j]
  }

  /** The elements of a sequence, each once, in order of first occurrence. */
  function Dedup(s: seq<String>): (r: seq<String>)
    ensures Distinct(r)
    ensures forall x :: x in r <==> x in s
  {
    if s == [] then []
    else
      var d := Dedup(s[..|s| - 1]);
      var last := s[|s| - 1];
      assert s == s[..|s| - 1] + [last];
      if last in d then d else d + [last]
  }

  /** The elements of a sequence that are not in `out`, in order. */
  function Without(s: seq<String>, out: set<String>): (r: seq<String>)
    ensures forall x :: x in r <==> x in s && x !in out
  {
    if s == [] then []
    else
      var rest := Without(s[1..], out);
      assert s == [s[0]] + s[1..];
      if s[0] in out then rest else [s[0]] + rest
  }

  /** A sequence without repetitions has as many elements as its set. */
  lemma {:induction false} DistinctCard<T>(s: seq<T>)
    requires Distinct(s)
    ensures |set x | x in s| == |s|
  {
    if s != [] {
      var init := s[..|s| - 1];
      var last := s[|s| - 1];
      assert Distinct(init);
      DistinctCard(init);
      assert s == init + [last];
      assert last !in init;
      assert (set x | x in s) == (set x | x in init) + {last};
    }
  }

  function Min(a: nat, b: nat): nat
  {
    if a <= b then a else b
  }

  lemma MissedElements(expected: String, user: String, missed: seq<String>)
    requires missed == Dedup(Without(Kept(Split(expected)), WordSet(user)))
    ensures forall x :: x in missed <==> x in MissedSet(expected, user)
  {
    var kept := Kept(Split(expected));
    var m := MissedSet(expected, user);
    var w := WordSet(user);
    forall x | x in missed
      ensures x in m
    {
      assert x in kept && x !in w;
    }
    forall x | x in m
      ensures x in missed
    {
      assert x in kept;
    }
  }

  /** The first five elements of a repetition-free listing of `m`. */
  lemma {:induction false} FirstFive(missed: seq<String>, m: set<String>)
    requires Distinct(missed)
    requires forall x :: x in missed <==> x in m
    ensures var ks := missed[..Min(5, |missed|)];
            Distinct(ks) && (forall k :: k in ks ==> k in m) && |ks| == Min(5, |m|)
  {
    DistinctCard(missed);
    assert (set x | x in missed) == m;
    var ks := missed[..Min(5, |missed|)];
    assert forall k :: k in ks ==> k in missed;
  }

  /** `list(exp_words - user_words)[:5]`: at most five distinct missed words, as many as there are up to five. */
  function MissedKeywords(expected: String, user: String): (ks: seq<String>)
    ensures Distinct(ks)
    ensures forall k :: k in ks ==> k in MissedSet(expected, user)
    ensures |ks| == Min(5, |MissedSet(expected, user)|)
  {
    var missed := Dedup(Without(Kept(Split(expected)), WordSet(user)));
    MissedElements(expected, user, missed);
    FirstFive(missed, MissedSet(expected, user));
    missed[..Min(5, |missed|)]
  }

  /** When five or fewer words are missed, the keyword list names all of them. */
  lemma AllMissedShown(expected: String, user: String)
    requires |MissedSet(expected, user)| <= 5
    ensures forall x :: x in MissedSet(expected, user) <==> x in MissedKeywords(expected, user)
  {
    var ks := MissedKeywords(expected, user);
    var m := MissedSet(expected, user);
    var shown := set x | x in ks;
    DistinctCard(ks);
    assert shown <= m;
    assert |m - shown| == |m| - |shown|;
  }

  /** The one-line assessment. */
  datatype Assessment = GoodAnswer | PartiallyCorrect | NeedsImprovement
  {
    function Text(): String
    {
      match this
      case GoodAnswer => "Good answer"
      case PartiallyCorrect => "Partially correct"
      case NeedsImprovement => "Needs improvement"
    }
  }

  /** The assessment ladder, with strict thresholds 0.7 and 0.5. */
  function Assess(sim: real): (a: Assessment)
    ensures a == GoodAnswer <==> sim > 0.7
    ensures a == PartiallyCorrect <==> 0.5 < sim <= 0.7
    ensures a == NeedsImprovement <==> sim <= 0.5
  {
    if sim > 0.7 then GoodAnswer
    else if sim > 0.5 then PartiallyCorrect
    else NeedsImprovement
  }

  const AskWhy: String := "Can you provide an example or explain why?"
  const AskExpand: String := "Can you expand with an example?"

  /** The follow-up question, chosen with the strict threshold `sim < 0.7`. */
  function FollowUp(sim: real): (f: String)
    ensures f == AskWhy <==> sim < 0.7
    ensures f == AskExpand <==> sim >= 0.7
  {
    if sim < 0.7 then AskWhy else AskExpand
  }

  /** The three parts of the heuristic's feedback. */
  datatype Fallback = Fallback(assessment: Assessment, keywords: seq<String>, followUp: String)

  /** fallback_feedback before formatting. */
  function FallbackFeedback(expected: String, user: String, sim: real): (fb: Fallback)
    ensures fb.keywords == MissedKeywords(expected, user)
    ensures |fb.keywords| <= 5
    ensures fb.assessment == Assess(sim) && fb.followUp == FollowUp(sim)
  {
    Fallback(Assess(sim), MissedKeywords(expected, user), FollowUp(sim))
  }

  /** Every shown keyword is a normalized long word of the expected answer and of no long word of the user's. */
  lemma KeywordOrigin(expected: String, user: String, sim: real, k: String)
    requires k in FallbackFeedback(expected, user, sim).keywords
    ensures k in MissedSet(expected, user)
    ensures exists v :: v in Split(expected) && |v| > 3 && Normalize(v) == k
    ensures forall u :: u in Split(user) && |u| > 3 ==> Normalize(u) != k
  {
    WordSetMembers(expected, k);
  }

  /** No shown keyword contains whitespace, so the keyword line is a single line. */
  lemma KeywordsAreSpaceFree(expected: String, user: String, k: String)
    requires k in MissedKeywords(expected, user)
    ensures NoSpace(k)
  {
    WordSetMembers(expected, k);
    var v :| v in Split(expected) && Yields(v, k);
    NormalizeNoSpace(v);
  }

  /** At similarity exactly 0.7 the strict thresholds pair a partial assessment with the "expand" follow-up. */
  lemma BoundaryAtSevenTenths(expected: String, user: String)
    ensures FallbackFeedback(expected, user, 0.7).assessment == PartiallyCorrect
    ensures FallbackFeedback(expected, user, 0.7).followUp == AskExpand
  {
  }

  predicate NoNewline(s: String)
  {
    forall i :: 0 <= i < |s| ==> s[i] != '\n'
  }

  /** The three lines of the feedback text. */
  function Lines(fb: Fallback): seq<String>
  {
    [fb.assessment.Text() + ".",
     "Keywords to include: " + Join(", ", fb.keywords),
     "Follow-up: " + fb.followUp]
  }

  /** The text fallback_feedback returns: its three lines joined by newlines, which is the f-string of the source. */
  function Render(fb: Fallback): (r: String)
    ensures var ls := Lines(fb); r == ls[0] + "\n" + ls[1] + "\n" + ls[2]
  {
    var ls := Lines(fb);
    JoinThree("\n", ls[0], ls[1], ls[2]);
    assert ls == [ls[0], ls[1], ls[2]];
    Join("\n", ls)
  }

  lemma JoinThree(sep: String, a: String, b: String, c: String)
    ensures Join(sep, [a, b, c]) == a + sep + b + sep + c
  {
    var ws := [a, b, c];
    assert ws[1..] == [b, c];
    assert [b, c][1..] == [c];
    assert Join(sep, [c]) == c;
    assert Join(sep, [b, c]) == b + sep + c;
    assert Join(sep, ws) == a + sep + (b + sep + c);
    assert a + sep + (b + sep + c) == a + sep + b + sep + c;
  }

  lemma {:induction false} JoinNoNewline(sep: String, ws: seq<String>)
    requires NoNewline(sep)
    requires forall k :: 0 <= k < |ws| ==> NoNewline(ws[k])
    ensures NoNewline(Join(sep, ws))
    decreases |ws|
  {
    if |ws| > 1 {
      JoinNoNewline(sep, ws[1..]);
    }
  }

  lemma ConcatNoNewline(a: String, b: String)
    requires NoNewline(a) && NoNewline(b)
    ensures NoNewline(a + b)
  {
    assert forall i :: |a| <= i < |a + b| ==> (a + b)[i] == b[i - |a|];
  }

  /** The fixed texts of the feedback contain no newline. */
  lemma FixedTextsNoNewline()
    ensures NoNewline(GoodAnswer.Text()) && NoNewline(PartiallyCorrect.Text()) && NoNewline(NeedsImprovement.Text())
    ensures NoNewline(AskWhy) && NoNewline(AskExpand)
    ensures NoNewline(".") && NoNewline(", ") && NoNewline("Keywords to include: ") && NoNewline("Follow-up: ")
  {
  }

  lemma LinesNoNewline(fb: Fallback)
    requires fb.followUp == AskWhy || fb.followUp == AskExpand
    requires forall k :: 0 <= k < |fb.keywords| ==> NoSpace(fb.keywords[k])
    ensures forall k :: 0 <= k < |Lines(fb)| ==> NoNewline(Lines(fb)[k])
  {
    FixedTextsNoNewline();
    forall k | 0 <= k < |fb.keywords|
      ensures NoNewline(fb.keywords[k])
    {
      assert IsSpace('\n');
    }
    JoinNoNewline(", ", fb.keywords);
    ConcatNoNewline(fb.assessment.Text(), ".");
    ConcatNoNewline("Keywords to include: ", Join(", ", fb.keywords));
    ConcatNoNewline("Follow-up: ", fb.followUp);
  }

  /** The rendered feedback is exactly three lines: none of the three parts contains a newline. */
  lemma ThreeLines(expected: String, user: String, sim: real)
    ensures var ls := Lines(FallbackFeedback(expected, user, sim));
            |ls| == 3 && forall k :: 0 <= k < 3 ==> NoNewline(ls[k])
  {
    var fb := FallbackFeedback(expected, user, sim);
    forall k | 0 <= k < |fb.keywords|
      ensures NoSpace(fb.keywords[k])
    {
      KeywordsAreSpaceFree(expected, user, fb.keywords[k]);
    }
    LinesNoNewline(fb);
  }
}
