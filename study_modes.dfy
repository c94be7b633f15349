/**
 * The table of study modes and its lookup. Keys that the source leaves out of
 * an entry (`is_game_mode`) read as false.
 */
module StudyModes {

  datatype ModeConfig = ModeConfig(
    name: string,
    description: string,
    requiresTyping: bool,
    requiresCommit: bool,
    minDelay: int,
    verificationRate: real,
    isGameMode: bool)

  const Flashcard := ModeConfig("\U{1F4C7} Flashcard Mode", "Traditional flip cards (honor system)",
    false, false, 0, 0.1, false)
  const MultipleChoice := ModeConfig("\U{1F3AF} Multiple Choice", "Choose the correct answer from 4 options",
    false, false, 0, 0.0, true)
  const TrueFalse := ModeConfig("✓✗ True/False", "Determine if the statement is true or false",
    false, false, 0, 0.0, true)
  const Quiz := ModeConfig("✍️ Quiz Mode", "Type your answer for verification",
    true, false, 0, 0.0, false)
  const Commit := ModeConfig("\U{1F3AF} Commit Mode", "Commit before revealing answer",
    false, true, 3, 0.2, false)
  const Hardcore := ModeConfig("\U{1F525} Hardcore Mode", "All anti-cheat features enabled",
    true, true, 5, 0.3, false)

  /** `STUDY_MODES` */
  const Modes: map<string, ModeConfig> := map[
    "flashcard" := Flashcard,
    "multiple_choice" := MultipleChoice,
    "true_false" := TrueFalse,
    "quiz" := Quiz,
    "commit" := Commit,
    "hardcore" := Hardcore]

  /** `get_mode_config(mode_key)`: the entry for a known key, the flashcard entry otherwise. */
  function GetModeConfig(modeKey: string): (c: ModeConfig)
    ensures modeKey in Modes ==> c == Modes[modeKey]
    ensures modeKey !in Modes ==> c == Modes["flashcard"]
    ensures c in Modes.Values
    ensures 0.0 <= c.verificationRate <= 1.0 && c.minDelay >= 0
  {
    if modeKey in Modes then Modes[modeKey] else Flashcard
  }

  /** Every mode has a verification rate in [0, 1] and a non-negative delay. */
  lemma ModesWellFormed()
    ensures forall k :: k in Modes ==> 0.0 <= Modes[k].verificationRate <= 1.0 && Modes[k].minDelay >= 0
  {
  }

  /** Hardcore turns on typing and commit, with a 5-second delay and rate 0.3; commit mode has commit only, 3 seconds, 0.2. */
  lemma HardcoreAndCommit()
    ensures GetModeConfig("hardcore").requiresTyping && GetModeConfig("hardcore").requiresCommit
    ensures GetModeConfig("hardcore").minDelay == 5 && GetModeConfig("hardcore").verificationRate == 0.3
    ensures GetModeConfig("commit").requiresCommit && !GetModeConfig("commit").requiresTyping
    ensures GetModeConfig("commit").minDelay == 3 && GetModeConfig("commit").verificationRate == 0.2
  {
  }

  /** Exactly the two game modes carry `is_game_mode`, and neither draws verification cards. */
  lemma GameModes()
    ensures forall k :: k in Modes ==> (Modes[k].isGameMode <==> k == "multiple_choice" || k == "true_false")
    ensures forall k :: k in Modes && Modes[k].isGameMode ==> Modes[k].verificationRate == 0.0
  {
  }
}
