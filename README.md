# Flashcard study engine — a verified model

This project models the study-session engine of a Streamlit flashcard
application in Dafny. It covers answer checking, scoring, the study-mode
table, quiz generation, the per-browser session state, the study tab's render
pass and button callbacks, and the two MongoDB-backed stores: users with their
answer log and anti-cheat checks, and decks.

The pieces are modelled as follows:

- **Session state.** `st.session_state` becomes the class `State.Session`, with
  one `Option` field per key the core uses; `None` means the key is absent.
  Keys whose value can itself be Python `None` hold an `Option` inside the
  `Option`.
- **Stores.** The user store is `UserStore.Store`: a sequence of user records
  with unique `_id`s, plus the sequence of logged study events. The deck store
  is `DeckStore.Store`, a map from deck name to cards.
- **Study tab.** It is the class `StudyTab.Page` over one session and the user
  store. Each button callback is a method, and so is `handle_quiz_submit`,
  which the answer form calls inline during the render pass.
- **Inputs for I/O and randomness.** Whatever the source reads from the outside
  world is an input:
  - `now` for `time.time()`;
  - `u` for `random.random()`;
  - Fisher–Yates draws `js` for `random.shuffle`;
  - sample positions `pick` for `random.sample`;
  - `choices` for the successive `random.choice` calls;
  - `matches` for the match count of `difflib.SequenceMatcher`.
- **Pure logic.** Python string built-ins (`lower`, `strip`, `replace`,
  `split`, `rstrip(c)`, `in`) are functions in module `Text`. `sorted` on
  strings is in module `Sorting`.

Each method is stated against a specification function of the old state. For
example, `Page.RenderStudyTab` ends in `RenderedData(old(...))` and
`ScreenOf(...)`, and `Store.UpdateUserScore` ends in `UsersAfterScore(...)`.
What the application promises is then proved as lemmas about those functions
and as invariants the methods keep. The session invariant is `Ready`: every
key the callbacks read is present and the index is among the cards. The store
invariant is `Valid`: names are unique and counters are consistent.

## Model

| member | source | states |
|---|---|---|
| AnswerChecking.Normalize | core/answer_checking.py:6-8 | the normalised text contains no upper-case letter, no `.` and no `,` |
| AnswerChecking.NormalizeNotIdempotent | core/answer_checking.py:8 | stripping runs before `.` is removed, so `". abc"` normalises to `" abc"`, which normalises again to `"abc"` |
| AnswerChecking.NormalizeDotSpace | core/answer_checking.py:8 | `". abc"` normalises to `" abc"` |
| AnswerChecking.NormalizeSpace | core/answer_checking.py:8 | `" abc"` normalises to `"abc"` |
| AnswerChecking.Ratio | core/answer_checking.py:24 | the ratio lies in [0, 1], is below 1 for different strings, and times the total length equals twice the match count |
| AnswerChecking.CheckAnswer | core/answer_checking.py:11-26 | equal normal forms give `(True, 1.0)`; otherwise the similarity is the ratio and correctness holds exactly when it reaches the threshold; similarity is 1 exactly for equal normal forms |
| AnswerChecking.CheckAnswerSelf | core/answer_checking.py:16-21 | any answer checked against itself gives `(True, 1.0)` |
| AnswerChecking.CheckAnswerIgnoresCase | core/answer_checking.py:16-21 | lower-casing the typed answer first changes neither its normal form nor the verdict |
| AnswerChecking.RatioAtDefaultThreshold | core/answer_checking.py:11-26 | for different strings, ratio ≥ 0.8 exactly when `5·2M ≥ 4·(len a + len b)` in integers |
| AnswerChecking.DefaultThresholdInIntegers | core/answer_checking.py:11-26 | with the default threshold a non-exact answer is accepted exactly when `5·2M ≥ 4·(total normalised length)` |
| Scoring.CalculatePoints | core/scoring.py:11-18 | a wrong answer scores −3; a correct one scores 10 plus 5 per streak step, so at least 10 and above the penalty for a non-negative streak |
| Scoring.PointsRiseWithStreak | core/scoring.py:13-15 | correct-answer points rise strictly with the streak |
| Scoring.ThreeStreakScoresTwentyFive | ui/components.py:234 | a correct answer on a streak of 3 scores 25, as the help text says |
| Scoring.PenaltyIgnoresStreak | core/scoring.py:16-17 | a wrong answer scores −3 whatever the streak |
| StudyModes.GetModeConfig | core/study_modes.py:59-61 | a known key gives its table entry and any other key gives the flashcard entry; every result has a rate in [0, 1] and a non-negative delay |
| StudyModes.ModesWellFormed | core/study_modes.py:5-56 | every mode has a verification rate in [0, 1] and `min_delay` ≥ 0 |
| StudyModes.HardcoreAndCommit | core/study_modes.py:40-55 | hardcore requires typing and commit, with delay 5 and rate 0.3; commit mode requires commit but not typing, with delay 3 and rate 0.2 |
| StudyModes.GameModes | core/study_modes.py:14-31 | exactly `multiple_choice` and `true_false` are game modes, and both have rate 0 |
| QuizGenerator.Available | core/quiz_generator.py:12 | the pool keeps exactly those answers that differ from the correct one under `lower().strip()` |
| QuizGenerator.AvailableCount | core/quiz_generator.py:12 | each answer that differs from the correct one is kept as often as the pool holds it, and no other answer is kept |
| QuizGenerator.IncorrectForm | core/quiz_generator.py:33 | the form has more non-whitespace characters than the answer |
| QuizGenerator.NegatedForm | core/quiz_generator.py:34 | the form has more non-whitespace characters than the answer |
| QuizGenerator.IsNotForm | core/quiz_generator.py:35 | replacing every `"is"` by `"is not"`, or appending `" variation"`, adds non-whitespace characters |
| QuizGenerator.FirstWordForm | core/quiz_generator.py:36 | the first word of a multi-word answer, or the answer plus `" alternative"`, has a different non-whitespace count from the answer |
| QuizGenerator.Variations | core/quiz_generator.py:32-37 | there are four forms, each with a non-whitespace count different from the answer's |
| QuizGenerator.CreateVariation | core/quiz_generator.py:30-38 | the chosen variation is one of the four forms |
| QuizGenerator.VariationNeverMatches | core/quiz_generator.py:32-37 | no variation equals the answer under `lower().strip()` |
| QuizGenerator.FillVariationsPrefix | core/quiz_generator.py:19-25 | the fill loop keeps the list it starts from as a prefix and never passes `count` |
| QuizGenerator.FillVariationsFresh | core/quiz_generator.py:22-25 | each item the loop adds is a variation not already in the list |
| QuizGenerator.FillVariationsStopsShort | core/quiz_generator.py:22-25 | if the loop ends below `count`, every variation drawn was already in the list |
| QuizGenerator.FillVariationsNeverMatch | core/quiz_generator.py:12-25 | with a filtered start, nothing in the filled list equals the answer under `lower().strip()` |
| QuizGenerator.Sample | core/quiz_generator.py:16 | the sample holds the pool items at the drawn positions |
| QuizGenerator.FakeAnswers | core/quiz_generator.py:7-27 | no fake equals the answer under `lower().strip()`, and there are at most `count` fakes. With enough alternatives the result is exactly `count` of them at the drawn, distinct positions. Otherwise it is all the alternatives in order, followed by fresh variations. |
| QuizGenerator.GenerateFakeAnswers | core/quiz_generator.py:7-27 | the `while` loop computes `FakeAnswers` |
| QuizGenerator.IndexOf | core/quiz_generator.py:64 | the result is the first position holding the item |
| QuizGenerator.Answers | core/quiz_generator.py:54 | the answer of every card, in order |
| QuizGenerator.ShuffleOptions | core/quiz_generator.py:60-61 | the shuffled options are a permutation of the options |
| QuizGenerator.AnswerOccursOnce | core/quiz_generator.py:60-64 | a permutation of filtered fakes plus the answer holds the answer exactly once |
| QuizGenerator.CreateMultipleChoiceQuestion | core/quiz_generator.py:51-71 | the options are a permutation of the fakes plus the answer, holding the answer exactly once at `correct_index`. There are 1 to 4 options, and exactly 4 when three alternatives exist. The question and answer are the card's. |
| QuizGenerator.TrueFalseStatement | core/quiz_generator.py:41-48 | the statement equals the true statement (the question without trailing `?`, an arrow, the answer) exactly when `is_true` holds; a false one uses `"Not "+answer` or `answer+" (incorrect version)"` |
| QuizGenerator.CreateTrueFalseQuestion | core/quiz_generator.py:74-82 | `is_true` holds exactly when the draw exceeds 0.5 and exactly when the statement is the true one, and the card's answer is kept |
| State.InitStudyDataCases | core/state.py:36-45 | with no cards or another deck stored, the cards become a permutation of the deck, index 0, question side, and the deck name is stored; otherwise nothing changes; no other key ever changes |
| State.InitStudyDataIdempotent | core/state.py:39-45 | initialising twice for the same deck equals initialising once |
| State.ShuffledCopy | core/state.py:41-42 | `list(cards)` shuffled in place is the Fisher–Yates permutation for the draws, and has the same multiset |
| State.Session.InitAuthState | core/state.py:6-9 | `username` becomes `None` only when it is absent |
| State.Session.SetUser | core/state.py:12-14 | only `username` changes |
| State.Session.GetCurrentUser | core/state.py:17-19 | the stored name, or `None` |
| State.Session.LogoutUser | core/state.py:22-25 | `username` is removed and nothing else changes; a no-op without a user |
| State.Session.DeleteKey | core/state.py:51-53 | `del session[key]` for a present key; no change otherwise |
| State.Session.InitStudyState | core/state.py:28-45 | the new session is `InitStudyData` of the old one |
| State.Session.StoreShuffled | core/state.py:41-45 | the stored cards become the given shuffled list, the index 0, the question side shown and the deck name recorded; no other key changes |
| State.Session.ResetStudyState | core/state.py:48-53 | the loop removes exactly `cards`, `index`, `show_answer` and `current_deck`, and every other key is unchanged |
| State.Session.ResetAllState | core/state.py:56-58 | the session is empty |
| State.LoginLogout | core/state.py:12-25 | `get_current_user` gives `u` after `set_user(u)` and `None` after `logout_user` |
| State.StudyKeysRemoved | core/state.py:48-53 | deleting the four study keys in order clears exactly those four |
| FlashcardLogic.NextIndex | core/flashcard_logic.py:14 | the result is a valid index; the index moves up by one, and from the last card it wraps to 0 |
| FlashcardLogic.AdvanceWraps | core/flashcard_logic.py:12-15 | up to n presses of next move k cards on, wrapping past the end once |
| FlashcardLogic.FullRoundReturns | core/flashcard_logic.py:12-15 | n presses of next return to the starting card |
| FlashcardLogic.FlipCard | core/flashcard_logic.py:5-8 | only `show_answer` changes, and it is negated |
| FlashcardLogic.NextCard | core/flashcard_logic.py:12-15 | the index moves to `(index+1) mod n` and `show_answer` becomes False; the cards and every other key are unchanged; from the last card it wraps to 0 |
| FlashcardLogic.FlipTwice | core/flashcard_logic.py:5-8 | flipping twice restores the session |
| StudyTab.FlowFor | ui/study_tab.py:77-103 | the plain flow runs exactly when the mode needs neither commit nor typing and the card is not a verification card. The commit flow runs exactly when the mode needs commit; the typed flow runs in every other case. |
| StudyTab.DefaultsSettle | ui/study_tab.py:53-60 | the defaults touch only the four absent keys, settle after one pass, and leave a session on a card ready |
| StudyTab.RenderedReady | ui/study_tab.py:49-67 | rendering a non-empty deck from a coherent session leaves every key the tab reads present, with the index among the cards |
| StudyTab.Page.RenderStudyTab | ui/study_tab.py:16-103 | an empty deck changes no session key and no store entry. Any other deck initialises the session, fills the defaults, and draws the screen of the resulting session. |
| StudyTab.Page.ApplyDefaults | ui/study_tab.py:53-60 | the session after the `not in st.session_state` checks |
| StudyTab.Page.DrawScreen | ui/study_tab.py:67-103 | the screen is the branch selection applied to the current card |
| StudyTab.NextStreak | ui/study_tab.py:205-208 | a correct answer adds 1 to the streak and a wrong one resets it to 0 |
| StudyTab.StreakCountsTrailingCorrect | ui/study_tab.py:205-208 | from 0 the session streak counts the correct answers since the last wrong one; from any start it equals that count after any wrong answer, and the start plus the number of answers when all are correct |
| StudyTab.Page.CommitKnow | ui/study_tab.py:112-114 | `committed_answer` becomes True and the card clock restarts; nothing else changes |
| StudyTab.Page.CommitDontKnow | ui/study_tab.py:116-118 | `committed_answer` becomes False and the answer is shown; nothing else changes |
| StudyTab.Page.RevealAnswer | ui/study_tab.py:122-124 | only `show_answer` changes, to True |
| StudyTab.Page.AdvanceCard | ui/study_tab.py:211-224 | the index wraps forward. `show_answer`, `committed_answer` and `quiz_result` are cleared, the clock restarts, and verification is redrawn from the session's mode. Nothing else changes. |
| StudyTab.Page.ShowCard | ui/study_tab.py:213-223 | the session holds the given index, the question side, the clock at `now`, no committed answer, the given verification draw and no quiz result; no other key changes |
| StudyTab.AdvancedShowsFreshCard | ui/study_tab.py:211-224 | the next card is ready, its question is shown with the panel that asks for an answer, and the cards and the streak are kept |
| StudyTab.Page.RecordAnswer | ui/study_tab.py:198-208 | one score update, with the points for the `current_streak` key and the verification flag. When the update succeeds, one event is logged with the elapsed time and the streak moves on. When it fails, nothing is logged and the session is unchanged. |
| StudyTab.Page.HandleWasCorrect | ui/study_tab.py:181-183 | records correct only if the user committed to knowing, then advances |
| StudyTab.Page.HandleWasIncorrect | ui/study_tab.py:185-187 | records a wrong answer, resets the streak and advances |
| StudyTab.Page.HandleQuizSubmit | ui/study_tab.py:129-139 | one `check_answer` verdict drives one score update and one log entry; then the streak moves on, `quiz_result` holds the verdict and the typed text, and the answer is shown |
| StudyTab.SubmittedShowsFeedback | ui/study_tab.py:96-103 | after a submit, a non-commit typed flow shows the answer and the feedback for that very result |
| StudyTab.HardcoreNeverTyped | ui/study_tab.py:77-100 | hardcore always takes the commit flow and never shows the answer field or quiz feedback |
| StudyTab.FlashcardVerificationIsTyped | ui/study_tab.py:77-103 | a verification card in flashcard mode is answered in the typed flow |
| StudyTab.GameModesArePlain | ui/study_tab.py:59-77 | a verification flag drawn in a game mode is false, so a card whose flag was drawn there takes the plain flow |
| StudyTab.CarriedFlagTypesGameMode | ui/study_tab.py:59-103 | a true flag carried over from another mode sends a game-mode card to the typed flow: the answer field, or the feedback once answered |
| StudyTab.VerifyButtonsGate | ui/study_tab.py:168-189 | with the answer shown in the commit flow, the yes/no buttons are enabled exactly when the elapsed time reaches the mode's delay; the badge shows whether the user committed to knowing |
| StudyTab.ShownSide | ui/study_tab.py:70-103 | the answer side is shown exactly when `show_answer` is set, and the badge exactly on verification cards |
| StudyTab.CommitRestartsClock | ui/study_tab.py:112-171 | right after "I know" the yes/no buttons are disabled in a mode with a delay |
| StudyTab.FlippedThenQuizHasNoResult | ui/study_tab.py:156-159 | an answer shown in quiz mode with no stored `quiz_result` gives the feedback panel nothing to read |
| UserStore.NewUser | data/user_store.py:12-28 | the new record has the given name, password and admin flag, zero counters, and is unflagged and well formed |
| UserStore.ScoreUpdate | data/user_store.py:36-75 | the points are added and one card is counted. A correct answer adds to `correct_answers` and the streak and raises `best_streak` to the streak. A wrong answer adds to `incorrect_answers`, zeroes the streak and keeps `best_streak`. A verified answer counts a pass or a fail by correctness. Well-formedness is kept. |
| UserStore.UsersAfterScore | data/user_store.py:55-75 | only the named record changes, and no record changes when the name is unknown |
| UserStore.ResetCounters | data/user_store.py:150-165 | the seven counters are zero; `best_streak`, `flagged` and the identity are kept; well-formedness is kept |
| UserStore.WithFlag | data/user_store.py:134-147 | only the named record's `flagged` changes |
| UserStore.WithFlagIdempotent | data/user_store.py:134-147 | setting the flag twice equals setting it once, and only `flagged` ever changes |
| UserStore.EventsOf | data/user_store.py:121 | an event is kept exactly when it is in the log and belongs to the user |
| UserStore.EventsOfCount | data/user_store.py:121 | each of the user's events is kept as many times as it was logged, and no other event is kept |
| UserStore.EventsOfConcat | data/user_store.py:121 | filtering a log split in two is filtering each part in turn, so the user's events keep their log order |
| UserStore.RecentEvents | data/user_store.py:121 | a prefix of the user's events, of length 50 or the number of the user's events if that is smaller |
| UserStore.FindingsStep | data/user_store.py:95-131 | one more user adds exactly that user's findings |
| UserStore.FindingsExactly | data/user_store.py:91-131 | a finding is reported exactly when some user meets its rule: medium for accuracy ≥ 99.5% over at least 100 cards; high for a pass rate below 50% over at least 10 verifications; high for at least 20 of the first 50 events averaging under 1 second |
| UserStore.UserFindingsExactly | data/user_store.py:96-129 | the checks on one user report a finding exactly when it names that user, carries the severity of its rule, and the user meets the rule |
| UserStore.SomeUserMeetsSnoc | data/user_store.py:95 | some user of a list meets a finding exactly when some user before the last one does or the last one does |
| UserStore.FindingsOfExactly | data/user_store.py:91-131 | a finding is in the scan of all users exactly when its severity is its rule's and some scanned user meets the rule |
| UserStore.UserFindingsAtMostThree | data/user_store.py:95-131 | a user gets at most three findings, and all three when every rule holds |
| UserStore.Unflagged | data/user_store.py:170 | exactly the unflagged records, as a sub-multiset |
| UserStore.InsertByScore | data/user_store.py:170 | insertion keeps the score order and adds exactly one record |
| UserStore.SortByScore | data/user_store.py:170 | the result is ordered by descending score and is a permutation |
| UserStore.GetLeaderboard | data/user_store.py:168-170 | the result is a sub-multiset of the unflagged users, in descending score, `limit` of them (all when the limit is 0 or large). No unflagged user left out outscores one kept. |
| UserStore.CutRanking | data/user_store.py:168-170 | the first `n` of a score-descending permutation of the unflagged users are a sub-multiset of them, stay in descending order, and no unflagged user left out outscores one kept |
| UserStore.LeaderboardTiesKeepOrder | data/user_store.py:168-170 | two unflagged users with equal scores are ranked in the order they are stored |
| UserStore.TopOfRanking | data/user_store.py:170 | cutting a ranking leaves out no one who outscores someone kept |
| UserStore.GetAllUsernames | data/user_store.py:7-9 | the result is sorted and is a permutation of the names |
| UserStore.Store.CreateUser | data/user_store.py:12-28 | appends the initial record exactly when the name is free |
| UserStore.Store.UpdateUserScore | data/user_store.py:35-75 | the users become `UsersAfterScore`; it fails exactly for a correct answer by an unknown user; validity is kept |
| UserStore.Store.LogStudySession | data/user_store.py:78-88 | appends exactly one event, and the users are unchanged |
| UserStore.Store.FlagUser | data/user_store.py:134-139 | the users become `WithFlag(…, true)` |
| UserStore.Store.UnflagUser | data/user_store.py:142-147 | the users become `WithFlag(…, false)` |
| UserStore.Store.SetFlag | data/user_store.py:134-147 | the shared `$set` of `flagged` |
| UserStore.Store.ResetUserScore | data/user_store.py:150-165 | the named record's counters are reset; no change for an unknown name |
| UserStore.Store.CheckUser | data/user_store.py:96-129 | the three checks give `UserFindings` |
| UserStore.Store.GetSuspiciousUsers | data/user_store.py:91-131 | the loop gives `FindingsOf` every user |
| UserStore.FlagTwice | data/user_store.py:134-139 | flagging twice equals flagging once |
| DeckStore.GetDeck | data/deck_store.py:21-24 | the deck's cards, or `[]` for a missing deck |
| DeckStore.GetAllCardsWithIndices | data/deck_store.py:116-130 | entry k has index k and the question and answer of card k |
| DeckStore.QuestionKeys | data/deck_store.py:84 | the key of every card, `question.strip().lower()` |
| DeckStore.StepNew | data/deck_store.py:85-93 | a new key joins `seen` at its position and reports nothing |
| DeckStore.StepRepeat | data/deck_store.py:85-91 | a repeated key is reported against the first position holding it |
| DeckStore.GetDeckNames | data/deck_store.py:16-18 | the deck names, sorted, each once |
| DeckStore.Store.AddCard | data/deck_store.py:27-40 | the card is appended to the named deck, which is created if absent; other decks are unchanged |
| DeckStore.Store.CreateDeck | data/deck_store.py:43-69 | a new empty deck and True exactly when the name is free; otherwise False and no change |
| DeckStore.Store.DeleteCard | data/deck_store.py:98-113 | for an index in range, exactly that card goes, the rest keep their order, and the result is True; otherwise False and no change |
| DeckStore.Store.FindDuplicateCards | data/deck_store.py:72-95 | each entry reports a card whose key occurred earlier, against the first position with that key, in increasing index order, and every such card is reported. The number of entries is the number of cards minus the number of distinct keys. |
| DeckStore.ScanCards | data/deck_store.py:80-93 | the loop's `duplicates` list is the one the card-by-card scan of the deck reaches after the last card |
| DeckStore.ScanCard | data/deck_store.py:84-93 | one card: a key already seen appends an entry against its first position, a new key is remembered at this position |
| DeckStore.ScanUpToCorrect | data/deck_store.py:80-95 | after any number of cards, `seen` holds first positions and `duplicates` exactly the repeats so far |
| DeckStore.ScanCount | data/deck_store.py:80-95 | repeats = cards − distinct keys |
| DeckStore.RemoveAt | data/deck_store.py:107 | `pop(i)`: one card shorter, cards before i kept, cards after i shifted down by one |

## Left out

- Rendering: Streamlit widgets, messages, the deck subheader, the "Card i of n" and session-streak lines, `timer_display` and every float formatting are display only. The model keeps what the screen decides: the side shown, the badge and the panel.
- The empty-deck branch of `render_study_tab` (ui/study_tab.py:26-44) builds a mailto link from the admin list of the external auth database; it is UI only and reads a collaborator that is not part of this model.
- `st.rerun()` after the reveal button and in `_next_card` is not modelled. The render pass is the method `Page.RenderStudyTab`, run afresh between user interactions.
- StudyTab.Page.HandleQuizSubmit: the source runs it inline from the answer form (ui/components.py:97-98), after the question box is drawn (ui/study_tab.py:99-100), and does not rerun. So the run that handles a submit still shows the question and the form, and the answer and feedback that `StudyTab.SubmittedShowsFeedback` describes appear only on the run after the user's next interaction. The model treats the submit as a step between two render passes.
- `_handle_answer_display` and `_handle_regular_mode` are not modelled: the tab never calls the first, and the second does nothing.
- Page wiring in app.py is not part of this model. That covers the deck-change tracking at app.py:94-97 and the `init_state` import at app.py:41, which names a function core/state.py does not define. The model passes `init_study_state`.
- The mode selector stores its choice in the session key `study_mode`. `render_study_tab` takes the mode as a parameter, while `_next_card` reads the key, defaulting to `flashcard`. The model keeps both readings as the source does.
- Scoring.CalculatePoints: the streak is a parameter. The study tab passes the `current_streak` session key (default 0), which nothing in the application writes, so in practice the bonus is always 0. The tab keeps `session_streak` instead.
- Game modes (`multiple_choice`, `true_false`) take the plain flashcard flow in the study tab when the verification flag was drawn in a game mode, where it is always false. `is_verification` is drawn only when the key is absent, so a true flag carried over from another mode sends the card to the typed flow, where it is scored (`StudyTab.CarriedFlagTypesGameMode`). The quiz generator is modelled on its own because the tab does not call it.
- StudyTab.Page.HandleWasCorrect: a `None` commit is treated as falsy, as the source does when scoring. The source logs that `None` as is; the model logs `false`.
- UserStore.Store.UpdateUserScore: for an unknown user the source's `$inc` matches nothing. For a correct answer it then raises reading `None`; this is modelled as `failed`, and the calling callback stops as the exception would stop it.
- UserStore.Store.CreateUser: a taken name raises a duplicate-key error in MongoDB; this is modelled as returning false with no change.
- DeckStore.Store.CreateDeck: the exception path for database errors is not modelled.
- Missing document fields read with `.get(…, 0)` are not modelled: every record the model stores has every field.
- Timestamps (`created_at`, the event `timestamp`) and the human-readable `reason` strings of the anti-cheat checks are left out; a finding carries its rule instead.
- UserStore.RecentEvents: MongoDB's natural order is taken to be insertion order.
- UserStore.GetLeaderboard: MongoDB does not fix the order of equal scores. The model's insertion sort keeps them in stored order, shown for two users by `UserStore.LeaderboardTiesKeepOrder`. A negative `limit` is not modelled; 0 means no limit, as in pymongo.
- AnswerChecking.CheckAnswer: `difflib.SequenceMatcher`'s algorithm is not modelled. Its match count is an input bounded by the shorter length, and it is below one of the two lengths unless the strings are equal.
- Floating point: ratios and thresholds are exact reals. The float rounding at the 0.8, 99.5% and 1-second boundaries is not modelled.
- `str.lower()` is modelled on ASCII letters only. `isspace` is modelled with Python's Unicode whitespace set.
- QuizGenerator.FakeAnswers: the fill loop is driven by an injected sequence of `random.choice` draws and stops when they run out; that exactly `count` items are reached is not proved, only that when the loop stops short every draw was a variation already present.
- QuizGenerator.CreateMultipleChoiceQuestion: states that the options are a permutation of the fakes plus the answer; that they are exactly four is proved only when three alternative answers exist, not for the variation fill.
- Concurrency between browser sessions and between Streamlit reruns is not modelled.
