/**
 * The per-user session of app.py: the points and streak counters, the
 * question being asked, and the grading step of check that ties the points
 * engine, the feedback and the display values together.
 *
 * The session dictionary is a class whose fields the handlers update in
 * place; the counter update is specified by the function Award on values.
 */
module Session {
  import opened Wrappers
  import opened PyText
  import opened Points
  import opened Feedback
  import opened Display

  /** The gamification counters kept in the session. */
  datatype Counters = Counters(points: nat, streak: nat)

  /** The counter update after an award: a positive award adds to the points and extends the streak, none breaks it. */
  function Award(c: Counters, pts: nat): (c': Counters)
    ensures c'.points == c.points + pts
    ensures c'.streak == 0 <==> pts == 0
    ensures c'.streak != 0 ==> c'.streak == c.streak + 1
  {
    if pts > 0 then Counters(c.points + pts, c.streak + 1)
    else Counters(c.points, 0)
  }

  /** The counters after a run of awards, oldest first. */
  function AwardAll(c: Counters, ps: seq<nat>): Counters
  {
    if ps == [] then c else Award(AwardAll(c, ps[..|ps| - 1]), ps[|ps| - 1])
  }

  function Sum(ps: seq<nat>): nat
  {
    if ps == [] then 0 else Sum(ps[..|ps| - 1]) + ps[|ps| - 1]
  }

  /** The number of positive awards at the end of the run. */
  function TrailingPositives(ps: seq<nat>): nat
  {
    if ps == [] || ps[|ps| - 1] == 0 then 0 else TrailingPositives(ps[..|ps| - 1]) + 1
  }

  predicate AllPositive(ps: seq<nat>)
  {
    forall i :: 0 <= i < |ps| ==> ps[i] > 0
  }

  /**
   * Over a run of awards the points grow by exactly their sum, and the
   * streak counts the consecutive positive awards at the end of the run
   * (continuing the old streak when every award was positive).
   */
  lemma {:induction false} AwardAllCounts(c: Counters, ps: seq<nat>)
    ensures AwardAll(c, ps).points == c.points + Sum(ps)
    ensures AwardAll(c, ps).streak
            == if AllPositive(ps) then c.streak + |ps| else TrailingPositives(ps)
  {
    if ps != [] {
      var init := ps[..|ps| - 1];
      AwardAllCounts(c, init);
      assert AllPositive(ps) <==> AllPositive(init) && ps[|ps| - 1] > 0 by {
        assert forall i :: 0 <= i < |init| ==> init[i] == ps[i];
      }
    }
  }

  /** Points never decrease, and a top badge once earned is kept whatever follows. */
  lemma MasterKept(c: Counters, ps: seq<nat>)
    requires c.points >= 100
    ensures AwardAll(c, ps).points >= c.points
    ensures SubjectMaster in Badges(AwardAll(c, ps).points)
  {
    AwardAllCounts(c, ps);
  }

  /** `cosine_sim(...) if expected_emb is not None else 0.0`, with the cosine given when the embedding exists. */
  function Similarity(stored: Option<real>): (sim: real)
    ensures stored.None? ==> sim == 0.0
    ensures stored.Some? ==> sim == stored.value
  {
    match stored
    case None => 0.0
    case Some(s) => s
  }

  /** Grading against a missing embedding awards nothing and breaks the streak. */
  lemma MissingEmbeddingBreaksStreak(c: Counters, draw: real)
    ensures var pts := ScorePoints(Similarity(None), c.streak, draw);
            pts == 0 && Award(c, pts) == Counters(c.points, 0)
  {
  }

  /**
   * The feedback text of check: the external text when it is present and not
   * empty, otherwise the local heuristic's text. The caller always gets text.
   */
  function ChooseFeedback(external: Option<String>, expected: String, user: String, sim: real): (text: String)
    ensures text != []
    ensures external.Some? && external.value != [] ==> text == external.value
    ensures external.None? || external.value == [] ==> text == Render(FallbackFeedback(expected, user, sim))
  {
    if external.Some? && external.value != [] then external.value
    else
      var fb := FallbackFeedback(expected, user, sim);
      assert Lines(fb)[0] != [];
      Render(fb)
  }

  /** Every critical hit is announced with the critical-hit message: it is worth at least 30. */
  lemma CriticalHitAnnounced(sim: real, streak: nat, draw: real, newStreak: nat)
    requires CriticalHit(sim, draw)
    ensures Special(ScorePoints(sim, streak, draw), newStreak) == CriticalHitMessage
  {
    CriticalAward(sim, streak, draw);
  }

  /** The critical-hit message also follows a combo award of 25 or more without a critical hit. */
  lemma ComboAlsoAnnouncedAsCritical()
    ensures !CriticalHit(0.7, 0.5)
    ensures ScorePoints(0.7, 5, 0.5) == 30
    ensures Special(ScorePoints(0.7, 5, 0.5), Award(Counters(0, 5), 30).streak) == CriticalHitMessage
  {
  }

  /**
   * A first-tier answer (similarity 0.95) at streak 2 with a critical hit
   * earns (15 + 4) * 2 = 38 and makes the streak 3; the award takes
   * precedence, so the message is the critical-hit one, not "Combo x3".
   */
  lemma CriticalAtStreakTwo(points: nat)
    ensures var pts := ScorePoints(0.95, 2, 0.05);
            var c := Award(Counters(points, 2), pts);
            pts == 38 && c == Counters(points + 38, 3) && Special(pts, c.streak) == CriticalHitMessage
  {
  }

  /** The question being asked: what the ask handler stores in the session. */
  datatype Question = Question(id: int, text: String, expected: String)

  /** What the result page shows for a graded answer. */
  datatype Report = Report(similarity: real, awarded: nat, total: nat, streak: nat,
                           badges: seq<Badge>, special: SpecialMessage, feedback: String)

  /** The outcome of check: back to the question, back home, or a graded answer. */
  datatype CheckOutcome = AskAgain | GoHome | Graded(report: Report)

  class QuizSession {
    var points: nat
    var streak: nat
    var current: Option<Question>

    function Counts(): Counters
      reads this
    {
      Counters(points, streak)
    }

    /** A first visit: points and streak default to 0, no question yet. */
    constructor ()
      ensures Counts() == Counters(0, 0) && current == None
    {
      points, streak, current := 0, 0, None;
    }

    /** The session writes of ask once a question has been drawn. */
    method Pose(q: Question)
      modifies this`current
      ensures current == Some(q)
    {
      current := Some(q);
    }

    /** reset: both counters back to 0. */
    method Reset()
      modifies this`points, this`streak
      ensures Counts() == Counters(0, 0)
    {
      points, streak := 0, 0;
    }

    /** The gamification update of check for an award `pts`. */
    method Record(pts: nat)
      modifies this`points, this`streak
      ensures Counts() == Award(old(Counts()), pts)
      ensures points >= old(points)
    {
      if pts > 0 {
        points := points + pts;
        streak := streak + 1;
      } else {
        streak := 0;
      }
    }

    /**
     * check: grade a submitted answer. `stored` is the cosine similarity when
     * the question's embedding exists, `draw` the random draw, and `external`
     * what the external feedback service returned, if anything.
     */
    method Check(rawAnswer: String, stored: Option<real>, draw: real, external: Option<String>)
      returns (out: CheckOutcome)
      modifies this`points, this`streak
      ensures StripSpace(rawAnswer) == [] ==> out == AskAgain && Counts() == old(Counts())
      ensures StripSpace(rawAnswer) != [] && current.None? ==> out == GoHome && Counts() == old(Counts())
      ensures StripSpace(rawAnswer) != [] && current.Some? ==>
                var sim := Similarity(stored);
                var pts := ScorePoints(sim, old(streak), draw);
                Counts() == Award(old(Counts()), pts)
                && out == Graded(Report(sim, pts, points, streak, Badges(points), Special(pts, streak),
                                        ChooseFeedback(external, current.value.expected, StripSpace(rawAnswer), sim)))
    {
      var answer := StripSpace(rawAnswer);
      if answer == [] {
        return AskAgain;
      }
      if current.None? {
        return GoHome;
      }
      var q := current.value;
      var report := Grade(answer, q, stored, draw, external);
      assert current == Some(q);
      out := Graded(report);
    }

    /** The graded part of check: score the stripped answer against question `q`, update the counters, build the report. */
    method Grade(answer: String, q: Question, stored: Option<real>, draw: real, external: Option<String>)
      returns (report: Report)
      modifies this`points, this`streak
      ensures var sim := Similarity(stored);
              var pts := ScorePoints(sim, old(streak), draw);
              Counts() == Award(old(Counts()), pts)
              && report == Report(sim, pts, points, streak, Badges(points), Special(pts, streak),
                                  ChooseFeedback(external, q.expected, answer, sim))
    {
      var sim := Similarity(stored);
      var pts := ScorePoints(sim, streak, draw);
      Record(pts);
      var feedback := ChooseFeedback(external, q.expected, answer, sim);
      report := Report(sim, pts, points, streak, Badges(points), Special(pts, streak), feedback);
    }
  }
}
