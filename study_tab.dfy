/**
 * The study tab: which of the three flows a card is shown in (plain flip
 * cards, commit-before-reveal, typed answer), what each flow puts on the
 * screen, and the button callbacks and the answer-form handler that record
 * answers, keep the session streak and move to the next card.
 *
 * The clock (`time.time()`) is the parameter `now`, `random.random()` is the
 * parameter `u`, and the matcher's match count of a typed answer is
 * `matches`. Each callback works on the session and on the user store.
 */
module StudyTab {
  import opened Wrappers
  import opened Cards
  import opened State
  import opened Randomness
  import opened StudyModes
  import opened Scoring
  import opened AnswerChecking
  import opened FlashcardLogic
  import UserStore

  /** The three branches of `render_study_tab`. */
  datatype Flow = PlainFlow | CommitFlow | TypedFlow

  /**
   * The branch taken: plain when the mode asks for neither commit nor typing
   * and the card is not a verification card; commit whenever the mode asks
   * for it; typed otherwise.
   */
  function FlowFor(config: ModeConfig, isVerification: bool): (f: Flow)
    ensures f == PlainFlow <==> !config.requiresCommit && !config.requiresTyping && !isVerification
    ensures f == CommitFlow <==> config.requiresCommit
    ensures f == TypedFlow <==> !config.requiresCommit && (config.requiresTyping || isVerification)
  {
    if !config.requiresCommit && !config.requiresTyping && !isVerification then PlainFlow
    else if config.requiresCommit then CommitFlow
    else TypedFlow
  }

  /** What sits under the card. */
  datatype Panel =
    | Controls                                    // flip and next
    | CommitButtons                               // "I know" / "I don't know"
    | RevealButton
    | VerifyButtons(enabled: bool, saidKnew: bool) // "was right" / "was wrong"
    | QuizInput
    | QuizFeedback(result: Option<QuizResult>)     // `None`: no `quiz_result`, the page fails

  /** The card text shown, whether the verification badge is shown, and the panel. */
  datatype Screen = Screen(shown: string, verificationBadge: bool, panel: Panel)

  /** The panel of each flow, given the side shown and the commit and quiz state. */
  function PanelFor(flow: Flow, showAnswer: bool, committed: Option<bool>, elapsed: real, minDelay: int,
                    quizResult: Option<QuizResult>): Panel
  {
    match flow
    case PlainFlow => Controls
    case CommitFlow =>
      if !showAnswer then (if committed.None? then CommitButtons else RevealButton)
      else VerifyButtons(elapsed >= minDelay as real, committed == Some(true))
    case TypedFlow => if !showAnswer then QuizInput else QuizFeedback(quizResult)
  }

  /** Every key the study tab reads once it has rendered a card. */
  predicate Ready(d: SessionData) {
    && OnCard(d)
    && d.sessionStreak.Some? && d.cardStartTime.Some? && d.committedAnswer.Some? && d.isVerification.Some?
  }

  /** Stored cards are always shown from a valid position. */
  predicate Coherent(d: SessionData) {
    d.cards.Some? ==> OnCard(d)
  }

  /** `st.session_state.cards[st.session_state.index]` */
  function CurrentCard(d: SessionData): Card
    requires OnCard(d)
  {
    d.cards.value[d.index.value]
  }

  /** The screen `render_study_tab` draws for a ready session in mode `config` at time `now`. */
  function ScreenOf(d: SessionData, config: ModeConfig, now: real): Screen
    requires Ready(d)
  {
    var card := CurrentCard(d);
    var flow := FlowFor(config, d.isVerification.value);
    Screen(if d.showAnswer.value then card.answer else card.question,
      d.isVerification.value,
      PanelFor(flow, d.showAnswer.value, d.committedAnswer.value, now - d.cardStartTime.value, config.minDelay,
        d.quizResult))
  }

  /** The defaults `render_study_tab` stores for keys that are absent. */
  function WithStudyDefaults(d: SessionData, now: real, verification: bool): SessionData {
    d.(sessionStreak := if d.sessionStreak.None? then Some(0) else d.sessionStreak,
       cardStartTime := if d.cardStartTime.None? then Some(now) else d.cardStartTime,
       committedAnswer := if d.committedAnswer.None? then Some(None) else d.committedAnswer,
       isVerification := if d.isVerification.None? then Some(verification) else d.isVerification)
  }

  /**
   * The defaults leave present keys alone, so filling them in a second time
   * (on the next rerun, at another time and with another draw) changes
   * nothing; a session on a card is ready afterwards.
   */
  lemma DefaultsSettle(d: SessionData, now: real, v: bool, now2: real, v2: bool)
    ensures var r := WithStudyDefaults(d, now, v);
      && WithStudyDefaults(r, now2, v2) == r
      && (OnCard(d) ==> Ready(r))
      && r.(sessionStreak := d.sessionStreak, cardStartTime := d.cardStartTime,
            committedAnswer := d.committedAnswer, isVerification := d.isVerification) == d
      && (d.isVerification.None? ==> r.isVerification == Some(v))
      && (d.sessionStreak.None? ==> r.sessionStreak == Some(0))
  {
  }

  /** The session after one render of a non-empty deck. */
  function RenderedData(d: SessionData, deck: seq<Card>, deckName: string, studyMode: string, js: seq<nat>,
                        now: real, u: real): SessionData
    requires ValidDraws(js, |deck|)
  {
    WithStudyDefaults(InitStudyData(d, deck, Some(deckName), js), now, u < GetModeConfig(studyMode).verificationRate)
  }

  /** A render of a non-empty deck leaves a coherent session ready to show a card. */
  lemma RenderedReady(d: SessionData, deck: seq<Card>, deckName: string, studyMode: string, js: seq<nat>,
                      now: real, u: real)
    requires ValidDraws(js, |deck|) && Coherent(d) && deck != []
    ensures Ready(RenderedData(d, deck, deckName, studyMode, js, now, u))
  {
    InitStudyDataCases(d, deck, Some(deckName), js);
    var e := InitStudyData(d, deck, Some(deckName), js);
    assert OnCard(e);
    DefaultsSettle(e, now, u < GetModeConfig(studyMode).verificationRate, now, false);
  }

  /** The session streak after one recorded answer. */
  function NextStreak(streak: int, correct: bool): (r: int)
    ensures correct ==> r == streak + 1
    ensures !correct ==> r == 0
  {
    if correct then streak + 1 else 0
  }

  /** The session after `_next_card()` at time `now` with verification draw `u`. */
  function AdvancedData(d: SessionData, now: real, u: real): SessionData
    requires OnCard(d)
  {
    d.(index := Some(NextIndex(d.index.value, |d.cards.value|)),
       showAnswer := Some(false),
       cardStartTime := Some(now),
       committedAnswer := Some(None),
       isVerification := Some(u < GetModeConfig(d.studyMode.GetOr("flashcard")).verificationRate),
       quizResult := None)
  }

  /**
   * On the next card the question is shown with the panel that asks for an
   * answer (controls, the commit buttons, or the answer field), the clock
   * restarts at `now`, and the streak and cards are kept.
   */
  lemma AdvancedShowsFreshCard(d: SessionData, now: real, u: real, config: ModeConfig)
    requires Ready(d)
    ensures var r := AdvancedData(d, now, u);
      && Ready(r)
      && r.cards == d.cards && r.sessionStreak == d.sessionStreak
      && CurrentCard(r) == d.cards.value[NextIndex(d.index.value, |d.cards.value|)]
      && ScreenOf(r, config, now).shown == CurrentCard(r).question
      && ScreenOf(r, config, now).panel in {Controls, CommitButtons, QuizInput}
  {
    var r := AdvancedData(d, now, u);
    assert r.showAnswer == Some(false) && r.committedAnswer == Some(None);
  }

  /** The points `calculate_points(correct)` gives in session `d`: the bonus reads `current_streak`. */
  function PointsIn(d: SessionData, correct: bool): int {
    CalculatePoints(correct, d.currentStreak.GetOr(0))
  }

  /** The user store after the score update of one answer given in session `d`. */
  function ScoredUsers(users: seq<UserStore.UserRecord>, d: SessionData, username: string, correct: bool)
    : seq<UserStore.UserRecord>
    requires d.isVerification.Some?
  {
    UserStore.UsersAfterScore(users, username, PointsIn(d, correct), correct, d.isVerification.value)
  }

  /** The study event one answer given in session `d` at time `now` logs. */
  function EventOf(d: SessionData, username: string, deckName: string, studyMode: string, correct: bool, now: real)
    : UserStore.StudyEvent
    requires Ready(d)
  {
    UserStore.StudyEvent(username, deckName, CurrentCard(d).question, now - d.cardStartTime.value, correct, studyMode)
  }

  /** The verdict of a typed answer to the current card. */
  function VerdictOf(d: SessionData, userAnswer: string, matches: nat): Verdict
    requires OnCard(d)
    requires ValidMatchCount(Normalize(userAnswer), Normalize(CurrentCard(d).answer), matches)
  {
    CheckAnswer(userAnswer, CurrentCard(d).answer, DefaultThreshold, matches)
  }

  /**
   * The study tab over one browser session and the user store; the methods
   * are the tab's render pass, its button callbacks and the handler the
   * answer form calls inline.
   */
  class Page {
    const session: Session
    const store: UserStore.Store

    constructor (session: Session, store: UserStore.Store)
      ensures this.session == session && this.store == store
    {
      this.session := session;
      this.store := store;
    }

    /**
     * `render_study_tab(cards, deck_name, username, study_mode, init_study_state)`.
     * An empty deck shows only the notice and changes nothing; otherwise the
     * deck is initialised, the absent keys get their defaults, and the screen
     * of the resulting session is drawn.
     */
    method RenderStudyTab(deck: seq<Card>, deckName: string, studyMode: string, js: seq<nat>,
                          now: real, u: real) returns (screen: Option<Screen>)
      requires ValidDraws(js, |deck|) && Coherent(session.Data())
      modifies session
      ensures deck == [] ==> screen == None && session.Data() == old(session.Data())
      ensures deck != [] ==>
        && session.Data() == RenderedData(old(session.Data()), deck, deckName, studyMode, js, now, u)
        && Ready(session.Data())
        && screen == Some(ScreenOf(session.Data(), GetModeConfig(studyMode), now))
    {
      if deck == [] {
        screen := None;
        return;
      }
      ghost var d0 := session.Data();
      session.InitStudyState(deck, Some(deckName), js);
      var config := GetModeConfig(studyMode);
      ApplyDefaults(now, u < config.verificationRate);
      RenderedReady(d0, deck, deckName, studyMode, js, now, u);
      var shown := DrawScreen(config, now);
      screen := Some(shown);
    }

    /** The `if key not in st.session_state` block of `render_study_tab`. */
    method ApplyDefaults(now: real, verification: bool)
      modifies session
      ensures session.Data() == WithStudyDefaults(old(session.Data()), now, verification)
    {
      if session.sessionStreak.None? {
        session.sessionStreak := Some(0);
      }
      if session.cardStartTime.None? {
        session.cardStartTime := Some(now);
      }
      if session.committedAnswer.None? {
        session.committedAnswer := Some(None);
      }
      if session.isVerification.None? {
        session.isVerification := Some(verification);
      }
    }

    /** The branch selection of `render_study_tab` for a ready session. */
    method DrawScreen(config: ModeConfig, now: real) returns (screen: Screen)
      requires Ready(session.Data())
      ensures screen == ScreenOf(session.Data(), config, now)
    {
      var card := session.cards.value[session.index.value];
      var flow := FlowFor(config, session.isVerification.value);
      var shown := if session.showAnswer.value then card.answer else card.question;
      var panel := PanelFor(flow, session.showAnswer.value, session.committedAnswer.value, now - session.cardStartTime.value,
        config.minDelay, session.quizResult);
      screen := Screen(shown, session.isVerification.value, panel);
    }

    /** `commit_know`: commits to knowing the answer and restarts the answer clock. */
    method CommitKnow(now: real)
      requires Ready(session.Data())
      modifies session
      ensures session.Data() == old(session.Data()).(committedAnswer := Some(Some(true)), cardStartTime := Some(now))
      ensures Ready(session.Data())
    {
      session.committedAnswer := Some(Some(true));
      session.cardStartTime := Some(now);
    }

    /** `commit_dont_know`: commits to not knowing and shows the answer at once. */
    method CommitDontKnow()
      requires Ready(session.Data())
      modifies session
      ensures session.Data() == old(session.Data()).(committedAnswer := Some(Some(false)), showAnswer := Some(true))
      ensures Ready(session.Data())
    {
      session.committedAnswer := Some(Some(false));
      session.showAnswer := Some(true);
    }

    /** The "Reveal Answer" button of the commit flow. */
    method RevealAnswer()
      requires Ready(session.Data())
      modifies session
      ensures session.Data() == old(session.Data()).(showAnswer := Some(true))
      ensures Ready(session.Data())
    {
      session.showAnswer := Some(true);
    }

    /** `_next_card()`: the next card, question side up, with a fresh clock, commit and verification draw. */
    method AdvanceCard(now: real, u: real)
      requires Ready(session.Data())
      modifies session
      ensures session.Data() == AdvancedData(old(session.Data()), now, u)
      ensures Ready(session.Data())
    {
      var next := (session.index.value + 1) % |session.cards.value|;
      var modeKey := if session.studyMode.Some? then session.studyMode.value else "flashcard";
      var modeConfig := GetModeConfig(modeKey);
      ShowCard(next, now, u < modeConfig.verificationRate);
    }

    /** The writes of `_next_card()`: card `next`, question side, clock at `now`, no commit, no quiz result. */
    method ShowCard(next: int, now: real, verification: bool)
      modifies session
      ensures session.Data() == old(session.Data()).(index := Some(next), showAnswer := Some(false),
        cardStartTime := Some(now), committedAnswer := Some(None), isVerification := Some(verification),
        quizResult := None)
    {
      session.index := Some(next);
      session.showAnswer := Some(false);
      session.cardStartTime := Some(now);
      session.committedAnswer := Some(None);
      session.isVerification := Some(verification);
      if session.quizResult.Some? {
        session.quizResult := None;
      }
    }

    /**
     * `_record_answer(card, deck_name, username, study_mode, correct)`: scores
     * the answer, logs it and updates the session streak. When the score
     * update fails (a correct answer by a user the store does not hold) the
     * callback stops there.
     */
    method RecordAnswer(deckName: string, username: string, studyMode: string,
                        correct: bool, now: real) returns (failed: bool)
      requires Ready(session.Data()) && store.Valid()
      modifies session, store
      ensures store.Valid()
      ensures failed <==> correct && UserStore.Lookup(old(store.users), username).None?
      ensures store.users == ScoredUsers(old(store.users), old(session.Data()), username, correct)
      ensures failed ==> store.sessions == old(store.sessions) && session.Data() == old(session.Data())
      ensures !failed ==>
        && store.sessions == old(store.sessions) + [EventOf(old(session.Data()), username, deckName, studyMode, correct, now)]
        && session.Data() == old(session.Data()).(sessionStreak := Some(NextStreak(old(session.sessionStreak.value), correct)))
      ensures Ready(session.Data())
    {
      var card := session.cards.value[session.index.value];
      var responseTime := now - session.cardStartTime.value;
      var streak := if session.currentStreak.Some? then session.currentStreak.value else 0;
      var points := CalculatePoints(correct, streak);
      failed := store.UpdateUserScore(username, points, correct, session.isVerification.value);
      if failed {
        return;
      }
      store.LogStudySession(username, deckName, card.question, responseTime, correct, studyMode);
      if correct {
        session.sessionStreak := Some(session.sessionStreak.value + 1);
      } else {
        session.sessionStreak := Some(0);
      }
    }

    /**
     * `handle_was_correct`: records the committed answer (true only when the
     * user committed to knowing it; a `None` commit counts as false), then
     * moves on.
     */
    method HandleWasCorrect(deckName: string, username: string, studyMode: string,
                            now: real, u: real) returns (failed: bool)
      requires Ready(session.Data()) && store.Valid()
      modifies session, store
      ensures store.Valid()
      ensures var correct := old(session.committedAnswer) == Some(Some(true));
        && (failed <==> correct && UserStore.Lookup(old(store.users), username).None?)
        && store.users == ScoredUsers(old(store.users), old(session.Data()), username, correct)
        && (failed ==> store.sessions == old(store.sessions) && session.Data() == old(session.Data()))
        && (!failed ==>
          && store.sessions == old(store.sessions) + [EventOf(old(session.Data()), username, deckName, studyMode, correct, now)]
          && session.Data() == AdvancedData(old(session.Data()).(sessionStreak := Some(NextStreak(old(session.sessionStreak.value), correct))), now, u))
      ensures Ready(session.Data())
    {
      var correct := session.committedAnswer.value == Some(true);
      failed := RecordAnswer(deckName, username, studyMode, correct, now);
      if !failed {
        AdvanceCard(now, u);
      }
    }

    /** `handle_was_incorrect`: records a wrong answer and moves on. */
    method HandleWasIncorrect(deckName: string, username: string, studyMode: string,
                              now: real, u: real)
      requires Ready(session.Data()) && store.Valid()
      modifies session, store
      ensures store.Valid()
      ensures store.users == ScoredUsers(old(store.users), old(session.Data()), username, false)
      ensures store.sessions == old(store.sessions) + [EventOf(old(session.Data()), username, deckName, studyMode, false, now)]
      ensures session.Data() == AdvancedData(old(session.Data()).(sessionStreak := Some(0)), now, u)
      ensures Ready(session.Data())
    {
      var failed := RecordAnswer(deckName, username, studyMode, false, now);
      AdvanceCard(now, u);
    }

    /**
     * `handle_quiz_submit(user_answer)`: checks the typed answer, then scores
     * and logs it and updates the streak exactly as `_record_answer` does (the
     * source repeats those steps inline), stores the result and shows the answer.
     * The answer form calls it during the render pass, without a rerun.
     */
    method HandleQuizSubmit(deckName: string, username: string, studyMode: string,
                            userAnswer: string, matches: nat, now: real) returns (failed: bool)
      requires Ready(session.Data()) && store.Valid()
      requires ValidMatchCount(Normalize(userAnswer), Normalize(CurrentCard(session.Data()).answer), matches)
      modifies session, store
      ensures store.Valid()
      ensures var v := VerdictOf(old(session.Data()), userAnswer, matches);
        && (failed <==> v.isCorrect && UserStore.Lookup(old(store.users), username).None?)
        && store.users == ScoredUsers(old(store.users), old(session.Data()), username, v.isCorrect)
        && (failed ==> store.sessions == old(store.sessions) && session.Data() == old(session.Data()))
        && (!failed ==>
          && store.sessions == old(store.sessions) + [EventOf(old(session.Data()), username, deckName, studyMode, v.isCorrect, now)]
          && session.Data() == old(session.Data()).(sessionStreak := Some(NextStreak(old(session.sessionStreak.value), v.isCorrect)),
               quizResult := Some(QuizResult(v.isCorrect, v.similarity, userAnswer)),
               showAnswer := Some(true)))
      ensures Ready(session.Data())
    {
      var card := session.cards.value[session.index.value];
      var verdict := CheckAnswer(userAnswer, card.answer, DefaultThreshold, matches);
      failed := RecordAnswer(deckName, username, studyMode, verdict.isCorrect, now);
      if failed {
        return;
      }
      session.quizResult := Some(QuizResult(verdict.isCorrect, verdict.similarity, userAnswer));
      session.showAnswer := Some(true);
    }
  }

  /**
   * After a typed answer is submitted the next render shows the answer with
   * the feedback for exactly that answer, in any mode that does not ask for
   * commit.
   */
  lemma SubmittedShowsFeedback(d: SessionData, config: ModeConfig, now: real, result: QuizResult, streak: int)
    requires Ready(d) && !config.requiresCommit && (config.requiresTyping || d.isVerification.value)
    ensures var r := d.(sessionStreak := Some(streak), quizResult := Some(result), showAnswer := Some(true));
      ScreenOf(r, config, now) == Screen(CurrentCard(d).answer, d.isVerification.value, QuizFeedback(Some(result)))
  {
  }

  // ----- what the flows guarantee -----

  /** Hardcore asks for typing too, but commit wins: no hardcore card is ever a typed quiz. */
  lemma HardcoreNeverTyped(d: SessionData, now: real)
    requires Ready(d)
    ensures FlowFor(GetModeConfig("hardcore"), d.isVerification.value) == CommitFlow
    ensures !ScreenOf(d, GetModeConfig("hardcore"), now).panel.QuizInput?
    ensures !ScreenOf(d, GetModeConfig("hardcore"), now).panel.QuizFeedback?
  {
    HardcoreAndCommit();
  }

  /** A verification card drawn in flashcard mode must be answered by typing. */
  lemma FlashcardVerificationIsTyped(d: SessionData, now: real)
    requires Ready(d) && d.isVerification == Some(true)
    ensures ScreenOf(d, GetModeConfig("flashcard"), now).panel in {QuizInput, QuizFeedback(d.quizResult)}
  {
  }

  /**
   * A verification flag drawn in a game mode is false (rate 0, and every
   * draw is at least 0), so a card whose flag was drawn there takes the plain
   * flow, which records no score.
   */
  lemma GameModesArePlain(key: string, u: real)
    requires key in Modes && Modes[key].isGameMode && IsUnitDraw(u)
    ensures FlowFor(GetModeConfig(key), u < GetModeConfig(key).verificationRate) == PlainFlow
  {
    GameModes();
  }

  /**
   * The flag is drawn only when the key is absent, so one set in another mode
   * is carried into a game mode: that card is then answered by typing and
   * scored.
   */
  lemma CarriedFlagTypesGameMode(d: SessionData, key: string, now: real)
    requires Ready(d) && d.isVerification == Some(true)
    requires key == "multiple_choice" || key == "true_false"
    ensures FlowFor(GetModeConfig(key), true) == TypedFlow
    ensures ScreenOf(d, GetModeConfig(key), now).panel in {QuizInput, QuizFeedback(d.quizResult)}
  {
  }

  /**
   * In the commit flow with the answer shown, the answer buttons are enabled
   * exactly when at least the mode's delay has passed since the clock last
   * restarted; the badge says whether the user committed to knowing it.
   */
  lemma VerifyButtonsGate(d: SessionData, config: ModeConfig, now: real)
    requires Ready(d) && config.requiresCommit && d.showAnswer == Some(true)
    ensures ScreenOf(d, config, now).panel
      == VerifyButtons(now - d.cardStartTime.value >= config.minDelay as real, d.committedAnswer.value == Some(true))
  {
  }

  /**
   * The answer side is shown exactly when `show_answer` is set (for a card
   * whose two sides differ), and the badge exactly on verification cards.
   */
  lemma ShownSide(d: SessionData, config: ModeConfig, now: real)
    requires Ready(d) && CurrentCard(d).question != CurrentCard(d).answer
    ensures ScreenOf(d, config, now).shown == CurrentCard(d).answer <==> d.showAnswer.value
    ensures ScreenOf(d, config, now).verificationBadge <==> d.isVerification.value
  {
  }

  /**
   * Committing to knowing the answer restarts the clock: right after it the
   * answer buttons stay disabled in any mode with a delay.
   */
  lemma CommitRestartsClock(d: SessionData, config: ModeConfig, now: real)
    requires Ready(d) && config.requiresCommit && config.minDelay > 0
    ensures var r := d.(committedAnswer := Some(Some(true)), cardStartTime := Some(now), showAnswer := Some(true));
      ScreenOf(r, config, now).panel == VerifyButtons(false, true)
  {
  }

  /**
   * With the answer shown in a typed mode and no stored `quiz_result` (a card
   * flipped before the mode was switched to quiz), the feedback panel has no
   * result to read.
   */
  lemma FlippedThenQuizHasNoResult(d: SessionData, now: real)
    requires Ready(d) && d.showAnswer == Some(true) && d.quizResult.None?
    ensures ScreenOf(d, GetModeConfig("quiz"), now).panel == QuizFeedback(None)
  {
  }

  // ----- the session streak over a run of answers -----

  /** The streak after recording `answers` in order, starting from `streak`. */
  function StreakAfter(streak: int, answers: seq<bool>): int
    decreases |answers|
  {
    if answers == [] then streak else StreakAfter(NextStreak(streak, answers[0]), answers[1..])
  }

  /** The number of correct answers at the end of `answers`. */
  function TrailingCorrect(answers: seq<bool>): nat
    decreases |answers|
  {
    if answers == [] || !answers[|answers| - 1] then 0 else 1 + TrailingCorrect(answers[..|answers| - 1])
  }

  lemma {:induction false} StreakAfterSnoc(streak: int, answers: seq<bool>, a: bool)
    ensures StreakAfter(streak, answers + [a]) == NextStreak(StreakAfter(streak, answers), a)
    decreases |answers|
  {
    if answers != [] {
      assert (answers + [a])[1..] == answers[1..] + [a];
      StreakAfterSnoc(NextStreak(streak, answers[0]), answers[1..], a);
    }
  }

  /**
   * From a fresh session the streak is the number of correct answers since
   * the last wrong one; from any start it is that number as soon as one
   * answer was wrong.
   */
  lemma {:induction false} StreakCountsTrailingCorrect(streak: int, answers: seq<bool>)
    ensures streak == 0 ==> StreakAfter(streak, answers) == TrailingCorrect(answers)
    ensures false in answers ==> StreakAfter(streak, answers) == TrailingCorrect(answers)
    ensures false !in answers ==> StreakAfter(streak, answers) == streak + |answers|
    decreases |answers|
  {
    if answers != [] {
      var n := |answers| - 1;
      var init := answers[..n];
      assert answers == init + [answers[n]];
      StreakAfterSnoc(streak, init, answers[n]);
      StreakCountsTrailingCorrect(streak, init);
      assert false in answers <==> false in init || !answers[n];
    }
  }
}
