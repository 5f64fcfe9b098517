/**
 * The seeker onboarding chat: five fixed questions asked one at a time, the
 * answers collected in a question-to-answer map, a message log, and at the
 * end a get-or-create of the user's `seeker_profiles` row.
 */
module SeekerChat {
  import opened Wrappers
  import opened Text
  import opened Db
  import opened App

  const Questions: seq<string> := [
    "What's your preferred budget range for rent per month?",
    "Which areas or neighborhoods are you interested in (e.g., Downtown, University Area)?",
    "How many roommates are you looking for, if any?",
    "Are you open to sharing a room, or do you prefer a private one?",
    "What's most important to you in a room: amenities, location, or price?"
  ]

  const ThanksMessage := "Thanks for answering! We're now processing your preferences to find the best matches."

  datatype Sender = You | Gemini

  datatype Message = Message(id: string, sender: Sender, text: string)

  datatype SaveOutcome = Saved(profileId: string) | SaveFailed(error: PgError)

  /** What a press of Send did: nothing, asked the next question, or finished and saved (then navigating to the dashboard). */
  datatype SendOutcome = Ignored | Asked(question: string) | Finished(save: SaveOutcome)

  /** Every message's id is the decimal string of its position in the log. */
  ghost predicate IdsArePositions(log: seq<Message>)
  {
    forall i :: 0 <= i < |log| ==> log[i].id == NatToString(i)
  }

  /** `addMessage`: appends one message whose id is the length of the log before it. */
  function AddMessage(log: seq<Message>, sender: Sender, text: string): (r: seq<Message>)
    ensures |r| == |log| + 1 && r[..|log|] == log
    ensures r[|log|].sender == sender && r[|log|].text == text
    ensures IdsArePositions(log) ==> IdsArePositions(r)
  {
    log + [Message(NatToString(|log|), sender, text)]
  }

  /** The chat as the seeker reads it: who said what, in order. */
  function Lines(log: seq<Message>): (r: seq<(Sender, string)>)
    ensures |r| == |log|
  {
    seq(|log|, i requires 0 <= i < |log| => (log[i].sender, log[i].text))
  }

  /** Adding a message adds exactly its line at the end of the chat. */
  lemma LinesOfAddMessage(log: seq<Message>, sender: Sender, text: string)
    ensures Lines(AddMessage(log, sender, text)) == Lines(log) + [(sender, text)]
  {
  }

  /**
   * What follows the opening question once the first `k` answers are sent:
   * each answer as the seeker's line, then the next question.
   */
  function Dialogue(answers: seq<string>, k: nat): (r: seq<(Sender, string)>)
    requires k <= |answers| && k < |Questions|
    ensures |r| == 2 * k
  {
    if k == 0 then [] else Dialogue(answers, k - 1) + [(You, answers[k - 1]), (Gemini, Questions[k])]
  }

  /** The dialogue alternates: the seeker's `j`-th answer, then question `j + 1`. */
  lemma {:induction false} DialogueAlternates(answers: seq<string>, k: nat, j: nat)
    requires k <= |answers| && k < |Questions| && j < k
    ensures Dialogue(answers, k)[2 * j] == (You, answers[j])
    ensures Dialogue(answers, k)[2 * j + 1] == (Gemini, Questions[j + 1])
  {
    if j < k - 1 {
      DialogueAlternates(answers, k - 1, j);
    }
  }

  /** Ids that are positions are unique, as the list's `keyExtractor` needs. */
  lemma IdsAreUnique(log: seq<Message>, i: nat, j: nat)
    requires IdsArePositions(log)
    requires i < |log| && j < |log| && log[i].id == log[j].id
    ensures i == j
  {
    NatToStringInjective(i, j);
  }

  /** Stores `answer` under the text of question `index`; the other questions' answers are kept. */
  function RecordAnswer(prefs: map<string, string>, index: nat, answer: string): (r: map<string, string>)
    requires index < |Questions|
    ensures Questions[index] in r && r[Questions[index]] == answer
    ensures forall q :: q != Questions[index] ==> (q in r <==> q in prefs)
    ensures forall q :: q in prefs && q != Questions[index] ==> r[q] == prefs[q]
  {
    prefs[Questions[index] := answer]
  }

  /** The index after an answer: one more, except that the last question's index stays put. */
  function NextIndex(index: nat): (r: nat)
    requires index < |Questions|
    ensures r < |Questions|
    ensures index < |Questions| - 1 ==> r == index + 1
    ensures index == |Questions| - 1 ==> r == index
  {
    if index < |Questions| - 1 then index + 1 else index
  }

  /** The "Question n/5" counter: min(index + 1, 5), always between 1 and 5. */
  function QuestionNumber(index: nat): (n: nat)
    ensures 1 <= n <= |Questions|
    ensures index < |Questions| ==> n == index + 1
    ensures index >= |Questions| ==> n == |Questions|
  {
    if index + 1 < |Questions| then index + 1 else |Questions|
  }

  /** The guard of `handleSendMessage`: non-blank input, no send in progress, a signed-in user. */
  predicate SendAccepted(input: string, isLoading: bool, uid: Option<string>)
  {
    Trim(input) != "" && !isLoading && UserPresent(uid)
  }

  /** A send is refused exactly when the input is blank, a send is loading, or nobody is signed in. */
  lemma SendRefusedIff(input: string, isLoading: bool, uid: Option<string>)
    ensures !SendAccepted(input, isLoading, uid) <==> AllSpace(input) || isLoading || !UserPresent(uid)
  {
    TrimEmptyIffAllSpace(input);
  }

  /**
   * `saveSeekerProfile` against the `seeker_profiles` table (keyed by user id):
   * a no-rows lookup inserts a row, any other lookup error aborts, and an
   * existing row is updated in place. `lookupFault` and `writeFault` are
   * failures of the lookup and of the insert or update; `newId` is the id the
   * database gives an inserted row.
   */
  function ProfileUpsert(
    profiles: map<string, SeekerProfileRow>, uid: string, prefs: map<string, string>,
    lookupFault: Option<PgError>, writeFault: Option<PgError>, newId: string)
    : (r: (map<string, SeekerProfileRow>, SaveOutcome))
    // a save leaves the user's row holding these preferences, marked onboarded, under the reported id
    ensures r.1.Saved? ==> uid in r.0 && r.0[uid] == SeekerProfileRow(r.1.profileId, prefs, true)
    // a failure writes nothing
    ensures r.1.SaveFailed? ==> r.0 == profiles
    // no other user's row is touched
    ensures r.0.Keys <= profiles.Keys + {uid}
    ensures forall u :: u in profiles && u != uid ==> u in r.0 && r.0[u] == profiles[u]
    // an existing row keeps its id; a new user gets the inserted id
    ensures lookupFault.None? && writeFault.None? ==> r.1 == Saved(if uid in profiles then profiles[uid].id else newId)
    // a lookup error other than no-rows aborts before any write
    ensures lookupFault.Some? && lookupFault.value.code != NoRowsCode ==> r == (profiles, SaveFailed(lookupFault.value))
    // a no-rows lookup error inserts a new row even where one exists (the duplicate-row case of `.single()`)
    ensures lookupFault.Some? && lookupFault.value.code == NoRowsCode && writeFault.None? ==>
      r == (profiles[uid := SeekerProfileRow(newId, prefs, true)], Saved(newId))
    ensures writeFault.Some? ==> r.0 == profiles && r.1.SaveFailed?
  {
    match SingleByUser(profiles, uid, lookupFault)
    case Failure(e) =>
      if e.code == NoRowsCode then
        if writeFault.Some? then (profiles, SaveFailed(writeFault.value))
        else (profiles[uid := SeekerProfileRow(newId, prefs, true)], Saved(newId))
      else (profiles, SaveFailed(e))
    case Success(row) =>
      if writeFault.Some? then (profiles, SaveFailed(writeFault.value))
      else (profiles[uid := row.(preferences := prefs, completedOnboarding := true)], Saved(row.id))
  }

  /** Saving the same preferences again changes nothing and reports the same row. */
  lemma ProfileUpsertIdempotent(
    profiles: map<string, SeekerProfileRow>, uid: string, prefs: map<string, string>, newId: string, otherId: string)
    ensures var (once, saved) := ProfileUpsert(profiles, uid, prefs, None, None, newId);
      ProfileUpsert(once, uid, prefs, None, None, otherId) == (once, saved)
  {
    var (once, saved) := ProfileUpsert(profiles, uid, prefs, None, None, newId);
    assert once[uid := once[uid].(preferences := prefs, completedOnboarding := true)] == once;
  }

  /**
   * The final save as written: `saveSeekerProfile` reads `seekerPreferences`
   * from the render in which Send was pressed, so the last answer's
   * `setSeekerPreferences` is not part of what it saves.
   */
  function LastSaveAsWritten(
    profiles: map<string, SeekerProfileRow>, uid: string, renderPrefs: map<string, string>, lastAnswer: string,
    lookupFault: Option<PgError>, writeFault: Option<PgError>, newId: string)
    : (r: (map<string, SeekerProfileRow>, SaveOutcome))
    ensures r.1.Saved? ==> uid in r.0 && r.0[uid].preferences == renderPrefs
  {
    ProfileUpsert(profiles, uid, renderPrefs, lookupFault, writeFault, newId)
  }

  /** The final save with the last answer included: what the screen evidently means to store. */
  function LastSave(
    profiles: map<string, SeekerProfileRow>, uid: string, renderPrefs: map<string, string>, lastAnswer: string,
    lookupFault: Option<PgError>, writeFault: Option<PgError>, newId: string)
    : (r: (map<string, SeekerProfileRow>, SaveOutcome))
    ensures r.1.Saved? ==> uid in r.0 && r.0[uid].preferences == RecordAnswer(renderPrefs, |Questions| - 1, lastAnswer)
    ensures r.1.Saved? ==> uid in r.0 && r.0[uid].preferences[Questions[|Questions| - 1]] == lastAnswer
  {
    ProfileUpsert(profiles, uid, RecordAnswer(renderPrefs, |Questions| - 1, lastAnswer), lookupFault, writeFault, newId)
  }

  /**
   * A seeker answering the fifth question for the first time: as written the
   * saved preferences have no answer to it, while the intended save stores it.
   */
  lemma StaleSnapshotDropsLastAnswer(
    profiles: map<string, SeekerProfileRow>, uid: string, renderPrefs: map<string, string>, lastAnswer: string, newId: string)
    requires Questions[|Questions| - 1] !in renderPrefs
    ensures var (table, _) := LastSaveAsWritten(profiles, uid, renderPrefs, lastAnswer, None, None, newId);
      uid in table && Questions[|Questions| - 1] !in table[uid].preferences
    ensures var (table, _) := LastSave(profiles, uid, renderPrefs, lastAnswer, None, None, newId);
      uid in table && table[uid].preferences[Questions[|Questions| - 1]] == lastAnswer
  {
  }

  /** The screen's state, and the `seeker_profiles` table it writes to. */
  class ChatScreen {
    var messages: seq<Message>
    var inputText: string
    var questionIndex: nat
    var preferences: map<string, string>
    var isLoading: bool
    var userId: Option<string>
    var profiles: map<string, SeekerProfileRow>

    /** The index always names a question, and message ids are positions. */
    ghost predicate Valid()
      reads this
    {
      questionIndex < |Questions| && IdsArePositions(messages)
    }

    /** The initial state of the component's `useState` hooks, over a given table. */
    constructor(table: map<string, SeekerProfileRow>)
      ensures Valid()
      ensures messages == [] && inputText == "" && questionIndex == 0 && preferences == map[]
      ensures !isLoading && userId == None && profiles == table
    {
      messages, inputText, questionIndex, preferences := [], "", 0, map[];
      isLoading, userId, profiles := false, None, table;
    }

    /**
     * The mount effect: with a signed-in user, remember the id and, if the log
     * is empty, ask the current question; without one, go to the sign-in screen.
     */
    method Mount(user: Option<string>) returns (nav: Option<Screen>)
      requires Valid()
      modifies this
      ensures Valid()
      ensures user.None? ==> nav == Some(Auth) && unchanged(this)
      ensures user.Some? ==> nav == None && userId == user
      ensures user.Some? && old(messages) == [] ==> messages == AddMessage([], Gemini, Questions[questionIndex])
      ensures user.Some? && old(messages) != [] ==> messages == old(messages)
      ensures inputText == old(inputText) && questionIndex == old(questionIndex) && preferences == old(preferences)
      ensures isLoading == old(isLoading) && profiles == old(profiles)
    {
      if user.None? {
        return Some(Auth);
      }
      userId := user;
      if |messages| == 0 && Questions[questionIndex] != "" {
        messages := AddMessage(messages, Gemini, Questions[questionIndex]);
      }
      nav := None;
    }

    /** `onChangeText={setInputText}` */
    method SetInput(text: string)
      modifies this`inputText
      ensures inputText == text
    {
      inputText := text;
    }

    /**
     * `saveSeekerProfile`, reading the current preferences. Its failures are
     * reported through an alert, which the outcome stands for.
     */
    method SaveSeekerProfile(lookupFault: Option<PgError>, writeFault: Option<PgError>, newId: string)
      returns (save: SaveOutcome)
      requires UserPresent(userId)
      modifies this`profiles
      ensures (profiles, save) == ProfileUpsert(old(profiles), userId.value, preferences, lookupFault, writeFault, newId)
    {
      var uid := userId.value;
      var lookup := SingleByUser(profiles, uid, lookupFault);
      if lookup.Failure? && lookup.error.code == NoRowsCode {
        if writeFault.Some? {
          return SaveFailed(writeFault.value);
        }
        profiles := profiles[uid := SeekerProfileRow(newId, preferences, true)];
        save := Saved(newId);
      } else if lookup.Failure? {
        save := SaveFailed(lookup.error);
      } else {
        if writeFault.Some? {
          return SaveFailed(writeFault.value);
        }
        var row := lookup.value;
        profiles := profiles[uid := SeekerProfileRow(row.id, preferences, true)];
        save := Saved(row.id);
      }
    }

    /**
     * `handleSendMessage`, with the one-second timer that asks the next
     * question taken as immediate. The final save includes the last answer
     * (see `LastSaveAsWritten` for the code as written).
     */
    method HandleSendMessage(lookupFault: Option<PgError>, writeFault: Option<PgError>, newId: string)
      returns (outcome: SendOutcome)
      requires Valid()
      modifies this
      ensures Valid()
      // a refused send changes nothing
      ensures !SendAccepted(old(inputText), old(isLoading), old(userId)) ==> outcome == Ignored && unchanged(this)
      // an accepted send clears the input, ends not loading, and records the untrimmed input under the current question
      ensures SendAccepted(old(inputText), old(isLoading), old(userId)) ==>
        && inputText == "" && !isLoading && userId == old(userId)
        && questionIndex == NextIndex(old(questionIndex))
        && preferences == RecordAnswer(old(preferences), old(questionIndex), old(inputText))
      // before the last question: one 'You' message, then the next question; nothing is saved
      ensures SendAccepted(old(inputText), old(isLoading), old(userId)) && old(questionIndex) < |Questions| - 1 ==>
        && outcome == Asked(Questions[old(questionIndex) + 1])
        && messages == AddMessage(AddMessage(old(messages), You, old(inputText)), Gemini, Questions[old(questionIndex) + 1])
        && profiles == old(profiles)
      // at the last question: one 'You' message, the closing message, and the profile save
      ensures SendAccepted(old(inputText), old(isLoading), old(userId)) && old(questionIndex) == |Questions| - 1 ==>
        && outcome.Finished?
        && messages == AddMessage(AddMessage(old(messages), You, old(inputText)), Gemini, ThanksMessage)
        && (profiles, outcome.save)
           == LastSave(old(profiles), old(userId).value, old(preferences), old(inputText), lookupFault, writeFault, newId)
    {
      if !SendAccepted(inputText, isLoading, userId) {
        return Ignored;
      }
      var asked := RecordSend();
      if asked < |Questions| - 1 {
        questionIndex := questionIndex + 1;
        AskNext(asked);
        outcome := Asked(Questions[asked + 1]);
      } else {
        var save := FinishOnboarding(lookupFault, writeFault, newId);
        outcome := Finished(save);
      }
    }

    /** The common start of an accepted send: log the answer, clear the input, start loading, record the answer. */
    method RecordSend() returns (asked: nat)
      requires Valid()
      modifies this`messages, this`inputText, this`isLoading, this`preferences
      ensures Valid() && asked == questionIndex
      ensures messages == AddMessage(old(messages), You, old(inputText))
      ensures inputText == "" && isLoading
      ensures preferences == RecordAnswer(old(preferences), questionIndex, old(inputText))
    {
      var userMessage := inputText;
      asked := questionIndex;
      messages := AddMessage(messages, You, userMessage);
      inputText := "";
      isLoading := true;
      preferences := RecordAnswer(preferences, asked, userMessage);
    }

    /** The timer callback, run at once: ask the question after `asked` and stop loading. */
    method AskNext(asked: nat)
      requires IdsArePositions(messages) && asked < |Questions| - 1
      modifies this`messages, this`isLoading
      ensures IdsArePositions(messages)
      ensures messages == AddMessage(old(messages), Gemini, Questions[asked + 1]) && !isLoading
    {
      messages := AddMessage(messages, Gemini, Questions[asked + 1]);
      isLoading := false;
    }

    /** The last answer's branch: the closing message, the profile save, and loading stops. */
    method FinishOnboarding(lookupFault: Option<PgError>, writeFault: Option<PgError>, newId: string)
      returns (save: SaveOutcome)
      requires IdsArePositions(messages) && UserPresent(userId)
      modifies this`messages, this`profiles, this`isLoading
      ensures IdsArePositions(messages)
      ensures messages == AddMessage(old(messages), Gemini, ThanksMessage) && !isLoading
      ensures (profiles, save) == ProfileUpsert(old(profiles), userId.value, preferences, lookupFault, writeFault, newId)
    {
      messages := AddMessage(messages, Gemini, ThanksMessage);
      save := SaveSeekerProfile(lookupFault, writeFault, newId);
      isLoading := false;
    }
  }

  /** The input row is rendered only while the index is below 5, which it always is: the render's completion-text branch is never shown. */
  lemma CompletionTextNeverShown(c: ChatScreen)
    requires c.Valid()
    ensures c.questionIndex < |Questions| && QuestionNumber(c.questionIndex) == c.questionIndex + 1
  {
  }

  /** The five questions are distinct, so each answer has its own key. */
  lemma QuestionsDistinct(i: nat, j: nat)
    requires i < |Questions| && j < |Questions| && i != j
    ensures Questions[i] != Questions[j]
  {
    assert |Questions[0]| == 54 && |Questions[1]| == 85 && |Questions[2]| == 47 && |Questions[3]| == 63 && |Questions[4]| == 70;
  }

  /** One more answer and question extend the dialogue by its next step. */
  lemma DialogueStep(prefix: seq<(Sender, string)>, lines: seq<(Sender, string)>, answers: seq<string>, k: nat)
    requires k < |answers| && k + 1 < |Questions|
    requires lines == prefix + Dialogue(answers, k)
    ensures lines + [(You, answers[k]), (Gemini, Questions[k + 1])] == prefix + Dialogue(answers, k + 1)
  {
  }

  /** Recording answer `k` keeps the answers already given to the questions before it. */
  lemma RecordAnswerKeepsEarlier(prefs: map<string, string>, answers: seq<string>, k: nat)
    requires k < |answers| && k < |Questions|
    requires forall i :: 0 <= i < k ==> Questions[i] in prefs && prefs[Questions[i]] == answers[i]
    ensures forall i :: 0 <= i <= k ==>
      Questions[i] in RecordAnswer(prefs, k, answers[k]) && RecordAnswer(prefs, k, answers[k])[Questions[i]] == answers[i]
  {
    forall i | 0 <= i < k
      ensures Questions[i] in RecordAnswer(prefs, k, answers[k]) && RecordAnswer(prefs, k, answers[k])[Questions[i]] == answers[i]
    {
      QuestionsDistinct(i, k);
    }
  }

  /**
   * The seeker types a non-blank `answer` to a question before the last and
   * presses Send: the answer is recorded, and the chat gains the answer and
   * the next question.
   */
  method Answer(c: ChatScreen, answer: string, newId: string)
    requires c.Valid() && UserPresent(c.userId) && !c.isLoading && Trim(answer) != ""
    requires c.questionIndex < |Questions| - 1
    modifies c
    ensures c.Valid() && c.userId == old(c.userId) && !c.isLoading && c.profiles == old(c.profiles)
    ensures c.questionIndex == old(c.questionIndex) + 1
    ensures c.preferences == RecordAnswer(old(c.preferences), old(c.questionIndex), answer)
    ensures Lines(c.messages) == Lines(old(c.messages)) + [(You, answer), (Gemini, Questions[old(c.questionIndex) + 1])]
  {
    ghost var log := c.messages;
    c.SetInput(answer);
    assert SendAccepted(c.inputText, c.isLoading, c.userId);
    var outcome := c.HandleSendMessage(None, None, newId);
    LinesOfAddMessage(log, You, answer);
    LinesOfAddMessage(AddMessage(log, You, answer), Gemini, Questions[old(c.questionIndex) + 1]);
  }

  /**
   * The seeker types a non-blank `answer` to the last question and presses
   * Send: the chat gains the answer and the thanks, and the corrected final
   * save runs.
   */
  method AnswerLast(c: ChatScreen, answer: string, newId: string) returns (save: SaveOutcome)
    requires c.Valid() && UserPresent(c.userId) && !c.isLoading && Trim(answer) != ""
    requires c.questionIndex == |Questions| - 1
    modifies c
    ensures c.Valid() && c.userId == old(c.userId) && !c.isLoading && c.questionIndex == old(c.questionIndex)
    ensures c.preferences == RecordAnswer(old(c.preferences), old(c.questionIndex), answer)
    ensures Lines(c.messages) == Lines(old(c.messages)) + [(You, answer), (Gemini, ThanksMessage)]
    ensures c.messages[|c.messages| - 1].text == ThanksMessage
    ensures (c.profiles, save) == LastSave(old(c.profiles), old(c.userId).value, old(c.preferences), answer, None, None, newId)
  {
    ghost var log := c.messages;
    c.SetInput(answer);
    assert SendAccepted(c.inputText, c.isLoading, c.userId);
    var outcome := c.HandleSendMessage(None, None, newId);
    save := outcome.save;
    LinesOfAddMessage(log, You, answer);
    LinesOfAddMessage(AddMessage(log, You, answer), Gemini, ThanksMessage);
  }

  /** Answering the first four questions in turn records each answer, asks the next question, and saves nothing. */
  method AnswerUntilLast(c: ChatScreen, answers: seq<string>, newId: string)
    requires c.Valid() && UserPresent(c.userId) && !c.isLoading && c.questionIndex == 0
    requires |answers| == |Questions|
    requires forall i :: 0 <= i < |answers| ==> Trim(answers[i]) != ""
    modifies c
    ensures c.Valid() && c.userId == old(c.userId) && !c.isLoading && c.profiles == old(c.profiles)
    ensures c.questionIndex == |Questions| - 1
    ensures forall i :: 0 <= i < |Questions| - 1 ==> Questions[i] in c.preferences && c.preferences[Questions[i]] == answers[i]
    ensures Lines(c.messages) == Lines(old(c.messages)) + Dialogue(answers, |Questions| - 1)
  {
    var k := 0;
    while k < |Questions| - 1
      invariant 0 <= k <= |Questions| - 1
      invariant c.Valid() && c.userId == old(c.userId) && !c.isLoading && c.profiles == old(c.profiles)
      invariant c.questionIndex == k
      invariant forall i :: 0 <= i < k ==> Questions[i] in c.preferences && c.preferences[Questions[i]] == answers[i]
      invariant Lines(c.messages) == Lines(old(c.messages)) + Dialogue(answers, k)
    {
      RecordAnswerKeepsEarlier(c.preferences, answers, k);
      DialogueStep(Lines(old(c.messages)), Lines(c.messages), answers, k);
      Answer(c, answers[k], newId);
      k := k + 1;
    }
  }

  /**
   * A seeker who signs in and answers all five questions (none blank) ends
   * with every answer recorded under its question, the whole chat in order,
   * and, with the corrected final save, a new onboarded profile holding all
   * five answers.
   */
  method OnboardingRun(uid: string, answers: seq<string>, newId: string) returns (c: ChatScreen)
    requires uid != "" && |answers| == |Questions|
    requires forall i :: 0 <= i < |answers| ==> Trim(answers[i]) != ""
    ensures c.Valid() && c.questionIndex == |Questions| - 1
    ensures forall i :: 0 <= i < |Questions| ==> Questions[i] in c.preferences && c.preferences[Questions[i]] == answers[i]
    ensures |c.messages| == 1 + 2 * |Questions| && c.messages[2 * |Questions|].text == ThanksMessage
    ensures c.profiles == map[uid := SeekerProfileRow(newId, c.preferences, true)]
    // the whole chat: the opening question, each answer followed by the next question, the last answer and the thanks
    ensures Lines(c.messages)
      == [(Gemini, Questions[0])] + Dialogue(answers, |Questions| - 1) + [(You, answers[|Questions| - 1]), (Gemini, ThanksMessage)]
  {
    c := new ChatScreen(map[]);
    var nav := c.Mount(Some(uid));
    LinesOfAddMessage([], Gemini, Questions[0]);
    ghost var opening := Lines(c.messages);
    assert opening == [(Gemini, Questions[0])];
    AnswerUntilLast(c, answers, newId);
    var last := |Questions| - 1;
    ghost var asked := Lines(c.messages);
    assert asked == opening + Dialogue(answers, last);
    RecordAnswerKeepsEarlier(c.preferences, answers, last);
    var save := AnswerLast(c, answers[last], newId);
    assert Lines(c.messages) == asked + [(You, answers[last]), (Gemini, ThanksMessage)];
  }
}
