/**
 * Values derived for the result page in check: the special message and the
 * badge list. Both are if/elif ladders whose precedence is kept as written.
 */
module Display {

  /** The special message shown with a graded answer. */
  datatype SpecialMessage = NoMessage | CriticalHitMessage | OnFire | ComboThree
  {
    function Text(): string
    {
      match this
      case NoMessage => ""
      case CriticalHitMessage => "\U{1F4A5} Critical Hit! Amazing!"
      case OnFire => "\U{1F525} You're on fire! Keep going!"
      case ComboThree => "\U{26A1} Combo x3! Streak bonus unlocked!"
    }
  }

  /**
   * The message for an award `pts` and the streak after the update: an award
   * of 25 or more comes first, then a streak of 5 or more, then a streak of
   * exactly 3.
   */
  function Special(pts: nat, streak: nat): (m: SpecialMessage)
    ensures m == CriticalHitMessage <==> pts >= 25
    ensures m == OnFire <==> pts < 25 && streak >= 5
    ensures m == ComboThree <==> pts < 25 && streak == 3
    ensures m == NoMessage <==> pts < 25 && streak < 5 && streak != 3
  {
    if pts >= 25 then CriticalHitMessage
    else if streak >= 5 then OnFire
    else if streak == 3 then ComboThree
    else NoMessage
  }

  datatype Badge = SubjectMaster | RisingStar
  {
    function Text(): string
    {
      match this
      case SubjectMaster => "\U{1F3C6} Subject Master"
      case RisingStar => "\U{1F31F} Rising Star"
    }
  }

  /** The badge list for a running total: at most one badge, the higher tier winning. */
  function Badges(total: nat): (bs: seq<Badge>)
    ensures |bs| <= 1
    ensures SubjectMaster in bs <==> total >= 100
    ensures RisingStar in bs <==> 50 <= total < 100
  {
    if total >= 100 then [SubjectMaster]
    else if total >= 50 then [RisingStar]
    else []
  }

  /** A total of exactly 100 earns the top badge and not the middle one. */
  lemma BadgeAtHundred()
    ensures Badges(100) == [SubjectMaster]
  {
  }
}
