/**
 * The per-browser session store (`st.session_state`) and the helpers that
 * initialise and clear it. Each key the core uses is one field; `None` means
 * the key is absent. Keys whose value can itself be Python `None`
 * (`username`, `current_deck`, `committed_answer`) hold an `Option` inside
 * the `Option`.
 */
module State {
  import opened Wrappers
  import opened Cards
  import opened Randomness

  /** The `quiz_result` dictionary of a typed answer. */
  datatype QuizResult = QuizResult(correct: bool, similarity: real, userAnswer: string)

  /** The whole session as a value. */
  datatype SessionData = SessionData(
    username: Option<Option<string>>,
    cards: Option<seq<Card>>,
    index: Option<int>,
    showAnswer: Option<bool>,
    currentDeck: Option<Option<string>>,
    sessionStreak: Option<int>,
    cardStartTime: Option<real>,
    committedAnswer: Option<Option<bool>>,
    isVerification: Option<bool>,
    quizResult: Option<QuizResult>,
    currentStreak: Option<int>,
    studyMode: Option<string>)

  /** A session with no keys. */
  const Empty := SessionData(None, None, None, None, None, None, None, None, None, None, None, None)

  /** The keys `reset_study_state` removes. */
  const StudyKeys: seq<string> := ["cards", "index", "show_answer", "current_deck"]

  /** The session after `del session[key]` (no change when the key is absent or unknown). */
  function WithoutKey(d: SessionData, key: string): SessionData {
    if key == "username" then d.(username := None)
    else if key == "cards" then d.(cards := None)
    else if key == "index" then d.(index := None)
    else if key == "show_answer" then d.(showAnswer := None)
    else if key == "current_deck" then d.(currentDeck := None)
    else if key == "session_streak" then d.(sessionStreak := None)
    else if key == "card_start_time" then d.(cardStartTime := None)
    else if key == "committed_answer" then d.(committedAnswer := None)
    else if key == "is_verification" then d.(isVerification := None)
    else if key == "quiz_result" then d.(quizResult := None)
    else if key == "current_streak" then d.(currentStreak := None)
    else if key == "study_mode" then d.(studyMode := None)
    else d
  }

  /** The session after deleting each of `keys` in turn. */
  function WithoutKeys(d: SessionData, keys: seq<string>): SessionData
    decreases |keys|
  {
    if keys == [] then d else WithoutKeys(WithoutKey(d, keys[0]), keys[1..])
  }

  lemma {:induction false} WithoutKeysSnoc(d: SessionData, keys: seq<string>, key: string)
    ensures WithoutKeys(d, keys + [key]) == WithoutKey(WithoutKeys(d, keys), key)
    decreases |keys|
  {
    if keys != [] {
      assert (keys + [key])[1..] == keys[1..] + [key];
      WithoutKeysSnoc(WithoutKey(d, keys[0]), keys[1..], key);
    }
  }

  /** `session.get("current_deck")`: the stored deck name, `None` when the key is absent. */
  function CurrentDeckOf(d: SessionData): Option<string> {
    if d.currentDeck.Some? then d.currentDeck.value else None
  }

  /** The session after `init_study_state(deck, deck_name)` with shuffle draws `js`. */
  function InitStudyData(d: SessionData, deck: seq<Card>, deckName: Option<string>, js: seq<nat>): SessionData
    requires ValidDraws(js, |deck|)
  {
    if d.cards.None? || CurrentDeckOf(d) != deckName
    then d.(cards := Some(FisherYates(deck, js, |deck|)), index := Some(0), showAnswer := Some(false),
            currentDeck := Some(deckName))
    else d
  }

  /**
   * When no cards are stored or another deck is, the stored cards become a
   * permutation of the deck, shown from the first card question side up, and
   * the deck name is recorded; otherwise nothing changes. No other key
   * changes in either case.
   */
  lemma InitStudyDataCases(d: SessionData, deck: seq<Card>, deckName: Option<string>, js: seq<nat>)
    requires ValidDraws(js, |deck|)
    ensures var r := InitStudyData(d, deck, deckName, js);
      && (d.cards.None? || CurrentDeckOf(d) != deckName ==>
            && r.cards.Some? && multiset(r.cards.value) == multiset(deck) && |r.cards.value| == |deck|
            && r.index == Some(0) && r.showAnswer == Some(false) && CurrentDeckOf(r) == deckName)
      && (d.cards.Some? && CurrentDeckOf(d) == deckName ==> r == d)
      && r.(cards := d.cards, index := d.index, showAnswer := d.showAnswer, currentDeck := d.currentDeck) == d
  {
  }

  /** Initialising twice for the same deck is the same as initialising once. */
  lemma InitStudyDataIdempotent(d: SessionData, deck: seq<Card>, deckName: Option<string>, js: seq<nat>)
    requires ValidDraws(js, |deck|)
    ensures InitStudyData(InitStudyData(d, deck, deckName, js), deck, deckName, js) == InitStudyData(d, deck, deckName, js)
  {
  }

  /** `list(deck)` shuffled in place by `random.shuffle` with draws `js`. */
  method ShuffledCopy(deck: seq<Card>, js: seq<nat>) returns (r: seq<Card>)
    requires ValidDraws(js, |deck|)
    ensures r == FisherYates(deck, js, |deck|)
    ensures multiset(r) == multiset(deck)
  {
    var buffer := new Card[|deck|](i requires 0 <= i < |deck| => deck[i]);
    assert buffer[..] == deck;
    Shuffle(buffer, js);
    r := buffer[..];
  }

  class Session {
    var username: Option<Option<string>>
    var cards: Option<seq<Card>>
    var index: Option<int>
    var showAnswer: Option<bool>
    var currentDeck: Option<Option<string>>
    var sessionStreak: Option<int>
    var cardStartTime: Option<real>
    var committedAnswer: Option<Option<bool>>
    var isVerification: Option<bool>
    var quizResult: Option<QuizResult>
    var currentStreak: Option<int>
    var studyMode: Option<string>

    function Data(): SessionData
      reads this
    {
      SessionData(username, cards, index, showAnswer, currentDeck, sessionStreak,
        cardStartTime, committedAnswer, isVerification, quizResult, currentStreak, studyMode)
    }

    /** A fresh browser session. */
    constructor ()
      ensures Data() == Empty
    {
      username, cards, index, showAnswer, currentDeck, sessionStreak := None, None, None, None, None, None;
      cardStartTime, committedAnswer, isVerification, quizResult, currentStreak, studyMode := None, None, None, None, None, None;
    }

    /** `init_auth_state()`: `username` becomes `None` if it is absent. */
    method InitAuthState()
      modifies this
      ensures Data() == if old(username).None? then old(Data()).(username := Some(None)) else old(Data())
    {
      if username.None? {
        username := Some(None);
      }
    }

    /** `set_user(name)` */
    method SetUser(name: string)
      modifies this
      ensures Data() == old(Data()).(username := Some(Some(name)))
    {
      username := Some(Some(name));
    }

    /** `get_current_user()`: the stored name, `None` when there is none. */
    method GetCurrentUser() returns (name: Option<string>)
      ensures name == (if username.Some? then username.value else None)
    {
      name := if username.Some? then username.value else None;
    }

    /** `logout_user()`: removes `username` if present. */
    method LogoutUser()
      modifies this
      ensures Data() == old(Data()).(username := None)
      ensures old(username).None? ==> Data() == old(Data())
    {
      if username.Some? {
        username := None;
      }
    }

    /** `del session[key]` for one key; nothing happens when the key is absent. */
    method DeleteKey(key: string)
      modifies this
      ensures Data() == WithoutKey(old(Data()), key)
    {
      if key == "username" { username := None; }
      else if key == "cards" { cards := None; }
      else if key == "index" { index := None; }
      else if key == "show_answer" { showAnswer := None; }
      else if key == "current_deck" { currentDeck := None; }
      else if key == "session_streak" { sessionStreak := None; }
      else if key == "card_start_time" { cardStartTime := None; }
      else if key == "committed_answer" { committedAnswer := None; }
      else if key == "is_verification" { isVerification := None; }
      else if key == "quiz_result" { quizResult := None; }
      else if key == "current_streak" { currentStreak := None; }
      else if key == "study_mode" { studyMode := None; }
    }

    /**
     * `init_study_state(cards, deck_name)`: when no cards are stored or the
     * stored deck is another one, stores a shuffled copy of `deck` (draws
     * `js`), index 0, the question side, and the deck name; otherwise changes
     * nothing.
     */
    method InitStudyState(deck: seq<Card>, deckName: Option<string>, js: seq<nat>)
      requires ValidDraws(js, |deck|)
      modifies this
      ensures Data() == InitStudyData(old(Data()), deck, deckName, js)
    {
      var storedDeck := if currentDeck.Some? then currentDeck.value else None;
      if cards.None? || storedDeck != deckName {
        var shuffled := ShuffledCopy(deck, js);
        StoreShuffled(shuffled, deckName);
      }
    }

    /** The four assignments of `init_study_state` that start a deck. */
    method StoreShuffled(shuffled: seq<Card>, deckName: Option<string>)
      modifies this
      ensures Data() == old(Data()).(cards := Some(shuffled), index := Some(0), showAnswer := Some(false),
                                     currentDeck := Some(deckName))
    {
      cards := Some(shuffled);
      index := Some(0);
      showAnswer := Some(false);
      currentDeck := Some(deckName);
    }

    /** `reset_study_state()`: deletes `cards`, `index`, `show_answer` and `current_deck`. */
    method ResetStudyState()
      modifies this
      ensures Data() == WithoutKeys(old(Data()), StudyKeys)
      ensures Data() == old(Data()).(cards := None, index := None, showAnswer := None, currentDeck := None)
    {
      var keysToClear := StudyKeys;
      for i := 0 to |keysToClear|
        invariant Data() == WithoutKeys(old(Data()), keysToClear[..i])
      {
        assert keysToClear[..i + 1] == keysToClear[..i] + [keysToClear[i]];
        WithoutKeysSnoc(old(Data()), keysToClear[..i], keysToClear[i]);
        DeleteKey(keysToClear[i]);
      }
      assert keysToClear[..|keysToClear|] == StudyKeys;
    }

    /** `reset_all_state()`: `session.clear()`. */
    method ResetAllState()
      modifies this
      ensures Data() == Empty
    {
      username, cards, index, showAnswer, currentDeck, sessionStreak := None, None, None, None, None, None;
      cardStartTime, committedAnswer, isVerification, quizResult, currentStreak, studyMode := None, None, None, None, None, None;
    }
  }

  /** Logging in makes the user current; logging out leaves no current user. */
  method LoginLogout(s: Session, name: string) returns (afterLogin: Option<string>, afterLogout: Option<string>)
    modifies s
    ensures afterLogin == Some(name) && afterLogout == None
  {
    s.SetUser(name);
    afterLogin := s.GetCurrentUser();
    s.LogoutUser();
    afterLogout := s.GetCurrentUser();
  }

  /** The deletions of `reset_study_state` in the order it makes them. */
  lemma StudyKeysRemoved(d: SessionData)
    ensures WithoutKeys(d, StudyKeys) == d.(cards := None, index := None, showAnswer := None, currentDeck := None)
  {
    assert StudyKeys[1..] == ["index", "show_answer", "current_deck"];
    assert StudyKeys[1..][1..] == ["show_answer", "current_deck"];
    assert StudyKeys[1..][1..][1..] == ["current_deck"];
  }
}
