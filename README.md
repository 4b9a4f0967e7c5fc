# Smart interview assistant: gamified grading, verified in Dafny

This project models the grading core of a quiz trainer web application. The
trainer shows a question. It compares the user's free-text answer with the
reference answer by embedding similarity, and then:

- awards points with tiers, a streak bonus, a random critical hit and a combo multiplier (`score_points`);
- updates the session's points and streak counters;
- picks a special message and a badge;
- writes feedback text with a local keyword heuristic (`fallback_feedback`) when no external text is available.

Modules, one per component of `app.py`:

- `Points` (`points.dfy`): the points engine. Similarity is a `real`. It is only compared with constants. The random draw `random.random()` is a parameter `draw`. It is consulted only at the top tier, as the short-circuit `and` of the source does.
- `PyText` (`pytext.dfy`): the Python string operations the heuristic uses. These are `str.split()`, `str.strip()` with and without a character set, `str.lower()` and `str.join`.
- `Feedback` (`feedback.dfy`): `fallback_feedback`. It covers word normalisation, the missed-keyword set, the first five keywords, the assessment, the follow-up and the three-line text.
- `Display` (`display.dfy`): the special-message and badge ladders of `check`, with their precedence kept as written.
- `Session` (`session.dfy`): the session dictionary as a class `QuizSession` with fields `points`, `streak` and `current`. It has the defaults of `index`, the writes of `ask`, `reset` and the whole of `check`. Its counter update is specified by the value function `Award` and its iteration `AwardAll`.
- `Wrappers` (`wrappers.dfy`): `Option`. It is used for a missing embedding, an absent external feedback text and no current question.

Two consequences of the code as written that the model keeps:

- An award of 25 or more takes precedence over the streak messages. An answer of similarity 0.95 at streak 2 with a critical hit earns 38 points and makes the streak 3. It shows the critical-hit message, not "Combo x3" (`Session.CriticalAtStreakTwo`).
- `strip(".,()")` removes those characters from both ends of a word, not only from its end.

## Model

| member | source | states |
|---|---|---|
| `Points.Tier` | app.py:51-59 | base is 15 iff sim >= 0.85, 10 iff 0.7 <= sim < 0.85, 5 iff 0.5 <= sim < 0.7, 0 iff sim < 0.5 |
| `Points.Combo` | app.py:69-70 | `int(n * 1.5)` is the largest integer r with r <= 1.5 n < r + 1 |
| `Points.CriticalHit` | app.py:65 | a critical hit can only happen at the top tier (base 15) |
| `Points.ScorePoints` | app.py:50-72 | the award is 0 iff sim < 0.5; from 0.5 on it lies between base + 2*streak and twice that |
| `Points.NothingBelowHalf` | app.py:50-65 | below 0.5 the award is 0 for every streak and every draw |
| `Points.DrawOnlyAtTopTier` | app.py:65 | below 0.85 two different draws give the same award: the draw is never consulted |
| `Points.PlainAward` | app.py:51-72 | no critical hit and streak < 5: award = tier base + 2*streak |
| `Points.CriticalAward` | app.py:65-66 | a critical hit gives exactly 2*(15 + 2*streak); the combo is not applied |
| `Points.ComboAward` | app.py:68-70 | no critical hit and streak >= 5: award = floor(1.5*(base + 2*streak)), never below base + 2*streak |
| `Points.HighAwardNeedsCritOrCombo` | app.py:50-72 | an award of 25 or more requires a critical hit or a streak of at least 5 |
| `Points.WorkedAwards` | app.py:50-72 | 5, 10 and 15 at the tiers with streak 0; 30 for a forced critical hit; 30 for 0.7 at streak 5; 38 for 0.95 at streak 2 with a critical hit |
| `PyText.Split` | app.py:105-106 | `split()` yields only non-empty words without whitespace |
| `PyText.Join` | app.py:108 | `sep.join(ws)` is empty for no words and the word itself for one; from two words on it starts with the first word and the separator |
| `PyText.JoinSnoc` | app.py:108 | joining one more word appends the separator and that word, so with the cases of `Join` the joined text is every word in order with one separator between neighbours |
| `PyText.SplitJoin` | app.py:105-106 | splitting words joined by single spaces gives the words back |
| `PyText.SplitKeepsNonSpace` | app.py:105-106 | a non-whitespace character occurs in some word iff it occurs in the text |
| `PyText.StripWhere` | app.py:105 | `strip(chars)` yields the slice of the input that starts after the leading run of strippable characters, ends on a kept character, and is followed only by strippable characters; neither end is strippable |
| `PyText.StripSpace` | app.py:147 | `strip()` yields the same slice with whitespace as the strippable characters: no whitespace at either end, only whitespace cut off |
| `PyText.BlankIffAllSpace` | app.py:147-149 | an answer strips to empty iff it is entirely whitespace |
| `PyText.Lower` | app.py:105-106 | `lower()` keeps the length, replaces each upper-case ASCII letter by the letter 32 code points above it, leaves no upper-case ASCII letter, and changes nothing else |
| `PyText.LowerKeepsSpace` | app.py:105-106 | a character is whitespace after lowering iff it was before |
| `PyText.LowerIdempotent` | app.py:105-106 | lowering twice equals lowering once |
| `Feedback.Normalize` | app.py:105-106 | a normalised word is the lower-cased word with the longest runs of `.`, `,`, `(`, `)` cut from both ends; it is no longer than the raw word and has no upper-case ASCII letter |
| `Feedback.NormalizeNoSpace` | app.py:105-106 | a raw word without whitespace normalises to a word without whitespace |
| `Feedback.Kept` | app.py:105-106 | every raw word longer than 3 contributes its normalisation |
| `Feedback.KeptOrigin` | app.py:105-106 | every kept word is the normalisation of a raw word longer than 3 |
| `Feedback.WordSet` | app.py:105-106 | the word set of an answer has at most one member per word of the answer |
| `Feedback.WordSetMembers` | app.py:105-106 | a word is in the answer's word set iff some raw word longer than 3 normalises to it |
| `Feedback.MissedSet` | app.py:107 | the missed words are expected words, none is a user word, and every expected word is missed or used |
| `Feedback.MissedElements` | app.py:107 | the deduplicated missed list has exactly the elements of `exp_words - user_words` |
| `Feedback.FirstFive` | app.py:108 | the first five of a repetition-free listing are distinct members, min(5, size) many |
| `Feedback.MissedKeywords` | app.py:107-108 | the keywords are distinct, lie in `exp_words - user_words`, and number min(5, size of that set) |
| `Feedback.AllMissedShown` | app.py:107-108 | when at most 5 words are missed, the keywords are exactly the missed set |
| `Feedback.Assess` | app.py:109 | "Good answer" iff sim > 0.7, "Partially correct" iff 0.5 < sim <= 0.7, "Needs improvement" iff sim <= 0.5 |
| `Feedback.FollowUp` | app.py:110 | the "explain why" question iff sim < 0.7, the "expand" question iff sim >= 0.7 |
| `Feedback.FallbackFeedback` | app.py:104-110 | the keywords are `MissedKeywords` of the two answers, at most 5 of them, with the assessment and follow-up for the similarity |
| `Feedback.KeywordOrigin` | app.py:105-108 | each keyword is the normalisation of a long expected word and of no long user word |
| `Feedback.KeywordsAreSpaceFree` | app.py:105-108 | no keyword contains whitespace |
| `Feedback.BoundaryAtSevenTenths` | app.py:109-110 | at sim exactly 0.7: "Partially correct" together with the "expand" follow-up |
| `Feedback.Render` | app.py:111 | the text is the assessment line, the keyword line and the follow-up line, separated by single newlines, as the f-string writes them |
| `Feedback.ThreeLines` | app.py:111 | the feedback text is three lines, none of which contains a newline |
| `Display.Special` | app.py:176-182 | critical-hit message iff pts >= 25; "on fire" iff pts < 25 and streak >= 5; "Combo x3" iff pts < 25 and streak == 3; otherwise none |
| `Display.Badges` | app.py:185-190 | at most one badge: "Subject Master" iff total >= 100, "Rising Star" iff 50 <= total < 100 |
| `Display.BadgeAtHundred` | app.py:185-190 | a total of exactly 100 gives only the top badge |
| `Session.Award` | app.py:162-166 | points grow by exactly the award; the streak becomes 0 iff the award is 0, and otherwise grows by one |
| `Session.AwardAllCounts` | app.py:162-166 | over a run of awards the points grow by their sum, and the streak is the number of trailing positive awards (old streak + run length if all were positive) |
| `Session.MasterKept` | app.py:162-190 | points never decrease over any run, so a "Subject Master" badge once earned is kept |
| `Session.Similarity` | app.py:158 | a missing embedding means similarity 0.0, otherwise the cosine value |
| `Session.MissingEmbeddingBreaksStreak` | app.py:158-166 | grading against a missing embedding awards 0 and resets the streak, leaving the points |
| `Session.ChooseFeedback` | app.py:169-173 | the external text when present and non-empty, otherwise the heuristic's text; never empty |
| `Session.CriticalHitAnnounced` | app.py:176-178 | every critical hit shows the critical-hit message |
| `Session.ComboAlsoAnnouncedAsCritical` | app.py:176-178 | a combo award of 30 without a critical hit also shows the critical-hit message |
| `Session.CriticalAtStreakTwo` | app.py:159-182 | 0.95 at streak 2 with a critical hit: 38 points, streak 3, critical-hit message rather than "Combo x3" |
| `Session.QuizSession.constructor` | app.py:117-119 | a new session starts with points 0, streak 0 and no question |
| `Session.QuizSession.Pose` | app.py:139-141 | asking a question records it as the current question |
| `Session.QuizSession.Reset` | app.py:204-208 | reset sets points and streak to 0 and changes nothing else |
| `Session.QuizSession.Record` | app.py:162-166 | the counters become `Award` of the old counters; points never decrease |
| `Session.QuizSession.Check` | app.py:145-202 | a blank answer leaves the counters unchanged and asks again; no question leaves them unchanged and goes home; otherwise the counters follow `Award` of the score at the old streak, and the report carries that award, the new total and streak, the badges, the special message and the feedback |
| `Session.QuizSession.Grade` | app.py:155-202 | the counters become `Award` of the score at the old streak, and the report carries the similarity, that award, the new total and streak, the badges, the special message and the chosen feedback |

## Left out

- `cosine_sim` (app.py:45-48): floating-point vector arithmetic. The similarity is an input `real`, present or absent.
- `MODEL.encode` and the sentence-transformer model: a foreign machine-learning library.
- `get_db`, `close_conn`, `load_embedding` and the SQL query of `ask`: database I/O. The query's result is the `Question` passed to `Pose`. The "No questions for subject" reply is web output and is not modelled.
- `generate_feedback_with_openai`: an external network call. Its result, possibly absent, is the `external` parameter of `Check`.
- Flask routing, templates, redirects, the signed cookie, the 7-day session lifetime, `start`'s subject and `index`'s `username` default: web plumbing.
- `load_csv_to_db.py` and `build_embeddings.py`: offline file, database and machine-learning I/O.
- The random number generator: `random.random()` is the parameter `draw`. Probabilities are not modelled.
- `PyText.Lower`: lower-cases ASCII letters only. Python's `lower()` also maps non-ASCII letters, sometimes to several code points.
- `Display.SpecialMessage.Text`: the literals of app.py:178-182 are UTF-8 emoji bytes shown as mis-decoded text; the model uses the characters 💥, 🔥 and ⚡ those bytes encode.
- `Display.Badge.Text`: the literals of app.py:188-190 are mis-decoded the same way, and the bytes shown for 🏆 lack one byte of its sequence; the model uses 🏆 and 🌟.
- `Points.Combo`: computes `int(n * 1.5)` exactly. The source multiplies in double precision, which is exact for every award a session can reach.
- `Feedback.MissedKeywords`: lists the missed words in order of first occurrence in the expected answer. The source takes the first five in Python's set iteration order, which is unspecified. The contracts state only membership, distinctness and number, which hold for any order.
