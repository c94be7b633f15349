/**
 * The `users` and `study_sessions` collections and the operations on them:
 * account creation, the per-answer score update, the answer log, the three
 * anti-cheat heuristics, flagging, score reset, the leaderboard and the list
 * of usernames. A collection is a sequence in its natural (insertion) order;
 * `_id` is the record's `name`, unique within `users`.
 */
module UserStore {
  import opened Wrappers
  import opened Sorting

  /** One document of `users` (without `created_at`). */
  datatype UserRecord = UserRecord(
    name: string,
    password: string,
    isAdmin: bool,
    totalScore: int,
    cardsStudied: int,
    correctAnswers: int,
    incorrectAnswers: int,
    currentStreak: int,
    bestStreak: int,
    verificationPassed: int,
    verificationFailed: int,
    flagged: bool)

  /** One document of `study_sessions` (without `timestamp`). */
  datatype StudyEvent = StudyEvent(
    username: string,
    deckName: string,
    cardQuestion: string,
    responseTime: real,
    correct: bool,
    mode: string)

  /**
   * What every record written only by this store satisfies: counters are
   * non-negative, every studied card is either correct or incorrect, the
   * current streak never passes the best one, and a verification result is
   * only ever counted together with an answer of the same correctness.
   */
  predicate WellFormed(u: UserRecord) {
    && u.cardsStudied == u.correctAnswers + u.incorrectAnswers
    && 0 <= u.currentStreak <= u.bestStreak
    && 0 <= u.verificationPassed <= u.correctAnswers
    && 0 <= u.verificationFailed <= u.incorrectAnswers
  }

  predicate AllWellFormed(users: seq<UserRecord>) {
    forall i :: 0 <= i < |users| ==> WellFormed(users[i])
  }

  /** `create_user(username, password, is_admin)`: the initial record. */
  function NewUser(name: string, password: string, isAdmin: bool): (u: UserRecord)
    ensures WellFormed(u)
    ensures u.name == name && u.password == password && u.isAdmin == isAdmin
    ensures u.totalScore == 0 && u.cardsStudied == 0 && u.bestStreak == 0 && !u.flagged
  {
    UserRecord(name, password, isAdmin, 0, 0, 0, 0, 0, 0, 0, 0, false)
  }

  /**
   * The net effect of `update_user_score` on an existing record: the `$inc`
   * of the counters, then the best-streak raise, then the streak reset.
   */
  function ScoreUpdate(u: UserRecord, pointsDelta: int, correct: bool, verified: bool): (r: UserRecord)
    ensures r.name == u.name && r.password == u.password && r.isAdmin == u.isAdmin && r.flagged == u.flagged
    ensures r.totalScore == u.totalScore + pointsDelta && r.cardsStudied == u.cardsStudied + 1
    ensures correct ==> && r.correctAnswers == u.correctAnswers + 1 && r.incorrectAnswers == u.incorrectAnswers
                        && r.currentStreak == u.currentStreak + 1
                        && r.bestStreak == (if u.currentStreak + 1 > u.bestStreak then u.currentStreak + 1 else u.bestStreak)
    ensures !correct ==> && r.incorrectAnswers == u.incorrectAnswers + 1 && r.correctAnswers == u.correctAnswers
                         && r.currentStreak == 0 && r.bestStreak == u.bestStreak
    ensures r.verificationPassed == u.verificationPassed + (if verified && correct then 1 else 0)
    ensures r.verificationFailed == u.verificationFailed + (if verified && !correct then 1 else 0)
    ensures WellFormed(u) ==> WellFormed(r)
  {
    var streak := if correct then u.currentStreak + 1 else 0;
    u.(totalScore := u.totalScore + pointsDelta,
       cardsStudied := u.cardsStudied + 1,
       correctAnswers := u.correctAnswers + (if correct then 1 else 0),
       incorrectAnswers := u.incorrectAnswers + (if correct then 0 else 1),
       currentStreak := streak,
       bestStreak := if correct && streak > u.bestStreak then streak else u.bestStreak,
       verificationPassed := u.verificationPassed + (if verified && correct then 1 else 0),
       verificationFailed := u.verificationFailed + (if verified && !correct then 1 else 0))
  }

  /** The collection after `update_user_score`: the named record updated, or no change when there is none. */
  function UsersAfterScore(users: seq<UserRecord>, name: string, pointsDelta: int, correct: bool, verified: bool)
    : (r: seq<UserRecord>)
    ensures |r| == |users|
    ensures Lookup(users, name).None? ==> r == users
    ensures Lookup(users, name).Some? ==> var k := Lookup(users, name).value;
      r[k] == ScoreUpdate(users[k], pointsDelta, correct, verified) && forall i :: 0 <= i < |users| && i != k ==> r[i] == users[i]
  {
    var k := Lookup(users, name);
    if k.Some? then users[k.value := ScoreUpdate(users[k.value], pointsDelta, correct, verified)] else users
  }

  /** The `$set` of `reset_user_score`: seven counters back to 0. */
  function ResetCounters(u: UserRecord): (r: UserRecord)
    ensures r.totalScore == 0 && r.cardsStudied == 0 && r.correctAnswers == 0 && r.incorrectAnswers == 0
    ensures r.currentStreak == 0 && r.verificationPassed == 0 && r.verificationFailed == 0
    ensures r.name == u.name && r.password == u.password && r.isAdmin == u.isAdmin
    ensures r.bestStreak == u.bestStreak && r.flagged == u.flagged
    ensures WellFormed(u) ==> WellFormed(r)
  {
    u.(totalScore := 0, cardsStudied := 0, correctAnswers := 0, incorrectAnswers := 0,
       currentStreak := 0, verificationPassed := 0, verificationFailed := 0)
  }

  /** The position of the record with `_id == name`, if any. */
  function Lookup(users: seq<UserRecord>, name: string): (k: Option<nat>)
    ensures k.Some? ==> k.value < |users| && users[k.value].name == name
    ensures k.None? ==> forall i :: 0 <= i < |users| ==> users[i].name != name
  {
    if users == [] then None
    else if users[0].name == name then Some(0)
    else
      var rest := Lookup(users[1..], name);
      if rest.Some? then Some(rest.value + 1) else None
  }

  predicate UniqueNames(users: seq<UserRecord>) {
    forall i, j :: 0 <= i < j < |users| ==> users[i].name != users[j].name
  }

  /** `update_one({"_id": name}, {"$set": {"flagged": flag}})` */
  function WithFlag(users: seq<UserRecord>, name: string, flag: bool): (r: seq<UserRecord>)
    ensures |r| == |users|
    ensures forall i :: 0 <= i < |users| ==>
      r[i] == (if users[i].name == name && Lookup(users, name) == Some(i) then users[i].(flagged := flag) else users[i])
  {
    var k := Lookup(users, name);
    if k.Some? then users[k.value := users[k.value].(flagged := flag)] else users
  }

  /** Setting the flag a second time changes nothing, and only `flagged` ever changes. */
  lemma WithFlagIdempotent(users: seq<UserRecord>, name: string, flag: bool)
    ensures WithFlag(WithFlag(users, name, flag), name, flag) == WithFlag(users, name, flag)
    ensures forall i :: 0 <= i < |users| ==> WithFlag(users, name, flag)[i].(flagged := users[i].flagged) == users[i]
  {
    var once := WithFlag(users, name, flag);
    LookupKeepsNames(users, once, name);
  }

  /** Two collections with the same names in the same order find a name at the same position. */
  lemma {:induction false} LookupKeepsNames(a: seq<UserRecord>, b: seq<UserRecord>, name: string)
    requires |a| == |b| && forall i :: 0 <= i < |a| ==> a[i].name == b[i].name
    ensures Lookup(a, name) == Lookup(b, name)
  {
    if a != [] {
      LookupKeepsNames(a[1..], b[1..], name);
    }
  }

  /** The heuristics of `get_suspicious_users`. */
  datatype Rule = PerfectAccuracy | LowVerification | ImpossibleSpeed
  datatype Severity = Medium | High
  datatype Suspicion = Suspicion(username: string, rule: Rule, severity: Severity)

  /** At least 100 cards and `correct / total * 100 >= 99.5`, in integers. */
  predicate PerfectAccuracyRule(u: UserRecord) {
    u.cardsStudied >= 100 && 200 * u.correctAnswers >= 199 * u.cardsStudied
  }

  /** At least 10 verification attempts and `passed / attempts * 100 < 50`, in integers. */
  predicate LowVerificationRule(u: UserRecord) {
    var attempts := u.verificationPassed + u.verificationFailed;
    attempts >= 10 && 2 * u.verificationPassed < attempts
  }

  /** The events logged for `name`, in log order. */
  function EventsOf(events: seq<StudyEvent>, name: string): (r: seq<StudyEvent>)
    ensures |r| <= |events|
    ensures forall e :: e in r <==> e in events && e.username == name
  {
    if events == [] then []
    else (if events[0].username == name then [events[0]] else []) + EventsOf(events[1..], name)
  }

  /** Each of the user's events is kept as many times as it was logged; no other event is kept. */
  lemma {:induction false} EventsOfCount(events: seq<StudyEvent>, name: string, e: StudyEvent)
    ensures multiset(EventsOf(events, name))[e] == if e.username == name then multiset(events)[e] else 0
  {
    if events != [] {
      assert events == [events[0]] + events[1..];
      EventsOfCount(events[1..], name, e);
    }
  }

  /**
   * Filtering a log split in two is filtering each part, one after the other:
   * the user's events keep their log order.
   */
  lemma {:induction false} EventsOfConcat(a: seq<StudyEvent>, b: seq<StudyEvent>, name: string)
    ensures EventsOf(a + b, name) == EventsOf(a, name) + EventsOf(b, name)
  {
    if a == [] {
      assert a + b == b;
    } else {
      assert (a + b)[0] == a[0] && (a + b)[1..] == a[1..] + b;
      EventsOfConcat(a[1..], b, name);
    }
  }

  /** `study_sessions.find({"username": name}).limit(50)` */
  function RecentEvents(events: seq<StudyEvent>, name: string): (r: seq<StudyEvent>)
    ensures r <= EventsOf(events, name)
    ensures |r| == if |EventsOf(events, name)| <= 50 then |EventsOf(events, name)| else 50
  {
    var mine := EventsOf(events, name);
    if |mine| <= 50 then mine else mine[..50]
  }

  function TotalTime(events: seq<StudyEvent>): real {
    if events == [] then 0.0 else events[0].responseTime + TotalTime(events[1..])
  }

  /** At least 20 of the user's first 50 events, with mean response time below one second. */
  predicate ImpossibleSpeedRule(u: UserRecord, events: seq<StudyEvent>) {
    var recent := RecentEvents(events, u.name);
    |recent| >= 20 && TotalTime(recent) < |recent| as real
  }

  /** The findings for one user, in the order the three checks run. */
  function UserFindings(u: UserRecord, events: seq<StudyEvent>): seq<Suspicion> {
    (if PerfectAccuracyRule(u) then [Suspicion(u.name, PerfectAccuracy, Medium)] else [])
    + (if LowVerificationRule(u) then [Suspicion(u.name, LowVerification, High)] else [])
    + (if ImpossibleSpeedRule(u, events) then [Suspicion(u.name, ImpossibleSpeed, High)] else [])
  }

  /** The findings for `users`, user by user. */
  function FindingsOf(users: seq<UserRecord>, events: seq<StudyEvent>): seq<Suspicion>
    decreases |users|
  {
    if users == [] then []
    else FindingsOf(users[..|users| - 1], events) + UserFindings(users[|users| - 1], events)
  }

  lemma FindingsStep(users: seq<UserRecord>, events: seq<StudyEvent>, i: nat)
    requires i < |users|
    ensures FindingsOf(users[..i + 1], events) == FindingsOf(users[..i], events) + UserFindings(users[i], events)
  {
    assert users[..i + 1][..i] == users[..i];
  }

  /** The severity each heuristic reports. */
  function SeverityOf(rule: Rule): Severity {
    if rule == PerfectAccuracy then Medium else High
  }

  /** `u` meets heuristic `rule` given the logged `events`. */
  predicate Meets(u: UserRecord, events: seq<StudyEvent>, rule: Rule) {
    match rule
    case PerfectAccuracy => PerfectAccuracyRule(u)
    case LowVerification => LowVerificationRule(u)
    case ImpossibleSpeed => ImpossibleSpeedRule(u, events)
  }

  /** The findings for one user are the rules it meets, reported under its name with each rule's severity. */
  lemma UserFindingsExactly(u: UserRecord, events: seq<StudyEvent>, s: Suspicion)
    ensures s in UserFindings(u, events) <==>
      s.username == u.name && s.severity == SeverityOf(s.rule) && Meets(u, events, s.rule)
  {
  }

  /** Some user of `users` is named in `s` and meets its rule. */
  predicate SomeUserMeets(users: seq<UserRecord>, events: seq<StudyEvent>, s: Suspicion) {
    exists i :: 0 <= i < |users| && users[i].name == s.username && Meets(users[i], events, s.rule)
  }

  lemma SomeUserMeetsSnoc(users: seq<UserRecord>, events: seq<StudyEvent>, s: Suspicion)
    requires users != []
    ensures var n := |users| - 1;
      SomeUserMeets(users, events, s) <==>
        SomeUserMeets(users[..n], events, s) || (users[n].name == s.username && Meets(users[n], events, s.rule))
  {
    var n := |users| - 1;
    var init := users[..n];
    if SomeUserMeets(users, events, s) {
      var i :| 0 <= i < |users| && users[i].name == s.username && Meets(users[i], events, s.rule);
      if i < n {
        assert init[i] == users[i];
      }
    }
    if SomeUserMeets(init, events, s) {
      var i :| 0 <= i < |init| && init[i].name == s.username && Meets(init[i], events, s.rule);
      assert users[i] == init[i];
    }
  }

  lemma {:induction false} FindingsOfExactly(users: seq<UserRecord>, events: seq<StudyEvent>, s: Suspicion)
    ensures s in FindingsOf(users, events) <==> s.severity == SeverityOf(s.rule) && SomeUserMeets(users, events, s)
    decreases |users|
  {
    if users != [] {
      var n := |users| - 1;
      FindingsOfExactly(users[..n], events, s);
      UserFindingsExactly(users[n], events, s);
      SomeUserMeetsSnoc(users, events, s);
    }
  }

  /**
   * A finding is reported exactly when some user meets its rule, each with
   * the rule's severity; the three rules are checked independently.
   */
  lemma FindingsExactly(users: seq<UserRecord>, events: seq<StudyEvent>, s: Suspicion)
    ensures s in FindingsOf(users, events) <==>
      && s.severity == SeverityOf(s.rule)
      && exists i :: 0 <= i < |users| && users[i].name == s.username && Meets(users[i], events, s.rule)
  {
    FindingsOfExactly(users, events, s);
  }

  /** One user is reported at most three times, and can be reported by all three rules at once. */
  lemma UserFindingsAtMostThree(u: UserRecord, events: seq<StudyEvent>)
    ensures |UserFindings(u, events)| <= 3
    ensures PerfectAccuracyRule(u) && LowVerificationRule(u) && ImpossibleSpeedRule(u, events) ==>
      |UserFindings(u, events)| == 3
  {
  }

  /**
   * `get_leaderboard(limit)`: the unflagged users, highest `total_score`
   * first, at most `limit` of them (`limit == 0` is no limit, as in pymongo).
   */
  function Unflagged(users: seq<UserRecord>): (r: seq<UserRecord>)
    ensures |r| <= |users|
    ensures forall u :: u in r <==> u in users && !u.flagged
    ensures multiset(r) <= multiset(users)
  {
    if users == [] then []
    else
      assert users == [users[0]] + users[1..];
      (if users[0].flagged then [] else [users[0]]) + Unflagged(users[1..])
  }

  predicate ScoreDescending(s: seq<UserRecord>) {
    forall i, j :: 0 <= i < j < |s| ==> s[i].totalScore >= s[j].totalScore
  }

  /** Inserts `x` before the first record scoring no more than it, so that ties keep `x` first. */
  function InsertByScore(x: UserRecord, s: seq<UserRecord>): (r: seq<UserRecord>)
    requires ScoreDescending(s)
    ensures ScoreDescending(r)
    ensures multiset(r) == multiset(s) + multiset{x}
  {
    if s == [] then [x]
    else if s[0].totalScore <= x.totalScore then [x] + s
    else
      var t := InsertByScore(x, s[1..]);
      assert s == [s[0]] + s[1..];
      BoundedByHead(s[0], s[1..], x, t);
      [s[0]] + t
  }

  /** Prepending a record that scores at least as much as every record of `t` keeps the order. */
  lemma BoundedByHead(h: UserRecord, rest: seq<UserRecord>, x: UserRecord, t: seq<UserRecord>)
    requires ScoreDescending([h] + rest) && ScoreDescending(t)
    requires x.totalScore <= h.totalScore
    requires multiset(t) == multiset(rest) + multiset{x}
    ensures ScoreDescending([h] + t)
  {
    forall j | 0 <= j < |t|
      ensures t[j].totalScore <= h.totalScore
    {
      assert t[j] in multiset(t);
      if t[j] != x {
        assert t[j] in multiset(rest);
        assert t[j] in rest;
        var k :| 0 <= k < |rest| && rest[k] == t[j];
        assert ([h] + rest)[0] == h && ([h] + rest)[k + 1] == rest[k];
      }
    }
  }

  function SortByScore(s: seq<UserRecord>): (r: seq<UserRecord>)
    ensures ScoreDescending(r)
    ensures multiset(r) == multiset(s)
  {
    if s == [] then []
    else
      assert s == [s[0]] + s[1..];
      InsertByScore(s[0], SortByScore(s[1..]))
  }

  function GetLeaderboard(users: seq<UserRecord>, limit: nat): (r: seq<UserRecord>)
    ensures ScoreDescending(r)
    ensures forall u :: u in r ==> u in users && !u.flagged
    ensures multiset(r) <= multiset(Unflagged(users))
    ensures |r| == if limit == 0 || limit >= |Unflagged(users)| then |Unflagged(users)| else limit
    ensures forall u, i :: u in users && !u.flagged && u !in r && 0 <= i < |r| ==> u.totalScore <= r[i].totalScore
  {
    var pool := Unflagged(users);
    var ranked := SortByScore(pool);
    var n := if limit == 0 || limit >= |ranked| then |ranked| else limit;
    CutRanking(users, ranked, n);
    ranked[..n]
  }

  /** The first `n` of a ranking of the unflagged users are the leaderboard `get_leaderboard` promises. */
  lemma CutRanking(users: seq<UserRecord>, ranked: seq<UserRecord>, n: nat)
    requires ScoreDescending(ranked) && multiset(ranked) == multiset(Unflagged(users)) && n <= |ranked|
    ensures ScoreDescending(ranked[..n])
    ensures forall u :: u in ranked[..n] ==> u in users && !u.flagged
    ensures multiset(ranked[..n]) <= multiset(Unflagged(users))
    ensures forall u, i :: u in users && !u.flagged && u !in ranked[..n] && 0 <= i < n ==>
      u.totalScore <= ranked[..n][i].totalScore
    ensures |Unflagged(users)| == |ranked|
  {
    SameMembers(ranked, Unflagged(users));
    TopOfRanking(ranked, n);
    assert |multiset(ranked)| == |multiset(Unflagged(users))|;
    assert ranked == ranked[..n] + ranked[n..];
  }

  /** Two unflagged users with equal scores are ranked in the order they are stored. */
  lemma LeaderboardTiesKeepOrder(a: UserRecord, b: UserRecord)
    requires !a.flagged && !b.flagged && a.totalScore == b.totalScore
    ensures GetLeaderboard([a, b], 0) == [a, b]
  {
    assert [a, b][1..] == [b];
    assert Unflagged([b]) == [b];
    assert Unflagged([a, b]) == [a, b];
    assert SortByScore([b]) == [b];
    assert SortByScore([a, b]) == InsertByScore(a, [b]) == [a, b];
  }

  lemma SameMembers(a: seq<UserRecord>, b: seq<UserRecord>)
    requires multiset(a) == multiset(b)
    ensures forall u :: u in a <==> u in b
  {
    forall u ensures u in a <==> u in b {
      assert u in a <==> u in multiset(a);
      assert u in b <==> u in multiset(b);
    }
  }

  /** Every record left out of the first `n` of a ranking scores no more than any record kept. */
  lemma TopOfRanking(ranked: seq<UserRecord>, n: nat)
    requires ScoreDescending(ranked) && n <= |ranked|
    ensures forall u, i :: u in ranked && u !in ranked[..n] && 0 <= i < n ==> u.totalScore <= ranked[i].totalScore
  {
    forall u, i | u in ranked && u !in ranked[..n] && 0 <= i < n
      ensures u.totalScore <= ranked[i].totalScore
    {
      var j :| 0 <= j < |ranked| && ranked[j] == u;
    }
  }

  /** `sorted(_id for every user)` */
  function GetAllUsernames(users: seq<UserRecord>): (r: seq<string>)
    ensures SortedStrings(r)
    ensures multiset(r) == multiset(seq(|users|, i requires 0 <= i < |users| => users[i].name))
  {
    SortStrings(seq(|users|, i requires 0 <= i < |users| => users[i].name))
  }

  /** Replacing a record by a well-formed one with the same name keeps the names unique and the records well formed. */
  lemma ReplaceKeepsValid(users: seq<UserRecord>, k: nat, r: UserRecord)
    requires k < |users| && r.name == users[k].name && WellFormed(r)
    requires UniqueNames(users) && AllWellFormed(users)
    ensures UniqueNames(users[k := r]) && AllWellFormed(users[k := r])
  {
  }

  class Store {
    var users: seq<UserRecord>
    var sessions: seq<StudyEvent>

    /** Names are unique (`_id`), and every record is one this store wrote. */
    predicate Valid()
      reads this
    {
      UniqueNames(users) && AllWellFormed(users)
    }

    constructor ()
      ensures Valid() && users == [] && sessions == []
    {
      users := [];
      sessions := [];
    }

    /** `create_user`: `insert_one` fails with a duplicate-key error (here: `false`) when the name is taken. */
    method CreateUser(name: string, password: string, isAdmin: bool) returns (created: bool)
      requires Valid()
      modifies this
      ensures Valid() && sessions == old(sessions)
      ensures created <==> Lookup(old(users), name).None?
      ensures created ==> users == old(users) + [NewUser(name, password, isAdmin)]
      ensures !created ==> users == old(users)
    {
      var k := Lookup(users, name);
      if k.Some? {
        created := false;
      } else {
        users := users + [NewUser(name, password, isAdmin)];
        created := true;
      }
    }

    /**
     * `update_user_score(name, points_delta, correct, verified)`. For a
     * missing user nothing changes; with `correct` the source then fails on
     * `user["current_streak"]` with `user` being `None`, reported here as
     * `failed`.
     */
    method UpdateUserScore(name: string, pointsDelta: int, correct: bool, verified: bool) returns (failed: bool)
      requires Valid()
      modifies this
      ensures Valid() && sessions == old(sessions)
      ensures failed <==> correct && Lookup(old(users), name).None?
      ensures users == UsersAfterScore(old(users), name, pointsDelta, correct, verified)
    {
      var found := Lookup(users, name);
      if found.None? {
        failed := correct;
        return;
      }
      failed := false;
      var k := found.value;
      // the $inc
      var u := users[k];
      u := u.(totalScore := u.totalScore + pointsDelta, cardsStudied := u.cardsStudied + 1);
      if correct {
        u := u.(correctAnswers := u.correctAnswers + 1, currentStreak := u.currentStreak + 1);
      } else {
        u := u.(incorrectAnswers := u.incorrectAnswers + 1);
      }
      if verified {
        if correct {
          u := u.(verificationPassed := u.verificationPassed + 1);
        } else {
          u := u.(verificationFailed := u.verificationFailed + 1);
        }
      }
      // the read back, then the best-streak raise and the streak reset
      var user := u;
      if correct && user.currentStreak > user.bestStreak {
        u := u.(bestStreak := user.currentStreak);
      }
      if !correct {
        u := u.(currentStreak := 0);
      }
      assert u == ScoreUpdate(users[k], pointsDelta, correct, verified);
      ReplaceKeepsValid(users, k, u);
      users := users[k := u];
    }

    /** `log_study_session`: appends one event. */
    method LogStudySession(name: string, deckName: string, cardQuestion: string, responseTime: real,
                           correct: bool, mode: string)
      modifies this
      ensures users == old(users)
      ensures sessions == old(sessions) + [StudyEvent(name, deckName, cardQuestion, responseTime, correct, mode)]
    {
      sessions := sessions + [StudyEvent(name, deckName, cardQuestion, responseTime, correct, mode)];
    }

    /** `flag_user(name)` */
    method FlagUser(name: string)
      requires Valid()
      modifies this
      ensures Valid() && sessions == old(sessions)
      ensures users == WithFlag(old(users), name, true)
    {
      SetFlag(name, true);
    }

    /** `unflag_user(name)` */
    method UnflagUser(name: string)
      requires Valid()
      modifies this
      ensures Valid() && sessions == old(sessions)
      ensures users == WithFlag(old(users), name, false)
    {
      SetFlag(name, false);
    }

    method SetFlag(name: string, flag: bool)
      requires Valid()
      modifies this
      ensures Valid() && sessions == old(sessions)
      ensures users == WithFlag(old(users), name, flag)
    {
      var k := Lookup(users, name);
      if k.Some? {
        users := users[k.value := users[k.value].(flagged := flag)];
      }
      assert forall i :: 0 <= i < |users| ==> users[i].name == old(users)[i].name;
    }

    /** `reset_user_score(name)` */
    method ResetUserScore(name: string)
      requires Valid()
      modifies this
      ensures Valid() && sessions == old(sessions)
      ensures Lookup(old(users), name).None? ==> users == old(users)
      ensures Lookup(old(users), name).Some? ==>
        var k := Lookup(old(users), name).value;
        users == old(users)[k := ResetCounters(old(users)[k])]
    {
      var k := Lookup(users, name);
      if k.Some? {
        var u := users[k.value];
        users := users[k.value := u.(totalScore := 0, cardsStudied := 0, correctAnswers := 0,
          incorrectAnswers := 0, currentStreak := 0, verificationPassed := 0, verificationFailed := 0)];
      }
      assert forall i :: 0 <= i < |users| ==> users[i].name == old(users)[i].name;
    }

    /** The three checks of `get_suspicious_users` for one user, in order. */
    method CheckUser(user: UserRecord) returns (found: seq<Suspicion>)
      ensures found == UserFindings(user, sessions)
    {
      found := [];
      var total := user.cardsStudied;
      if total >= 100 && 200 * user.correctAnswers >= 199 * total {
        found := found + [Suspicion(user.name, PerfectAccuracy, Medium)];
      }
      var attempts := user.verificationPassed + user.verificationFailed;
      if attempts >= 10 && 2 * user.verificationPassed < attempts {
        found := found + [Suspicion(user.name, LowVerification, High)];
      }
      var recent := RecentEvents(sessions, user.name);
      if |recent| >= 20 && TotalTime(recent) < |recent| as real {
        found := found + [Suspicion(user.name, ImpossibleSpeed, High)];
      }
    }

    /** `get_suspicious_users()`: the three checks for each user in turn. */
    method GetSuspiciousUsers() returns (suspicious: seq<Suspicion>)
      ensures suspicious == FindingsOf(users, sessions)
    {
      suspicious := [];
      for i := 0 to |users|
        invariant suspicious == FindingsOf(users[..i], sessions)
      {
        FindingsStep(users, sessions, i);
        var found := CheckUser(users[i]);
        suspicious := suspicious + found;
      }
      assert users[..|users|] == users;
    }
  }

  /** Flagging a user twice leaves the store as flagging once does. */
  method FlagTwice(store: Store, name: string)
    requires store.Valid()
    modifies store
    ensures store.users == WithFlag(old(store.users), name, true)
  {
    store.FlagUser(name);
    store.FlagUser(name);
    WithFlagIdempotent(old(store.users), name, true);
  }
}
