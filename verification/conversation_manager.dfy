/** `ConversationManager`: the per-phone pending confirmation, the meal slot
    of the hour, the turn bookkeeping around each chat call, the profile
    fields read out of what the user says, and the daily summary.

    The manager's state is its `pendingActions` map plus the store; every
    handler takes a session and returns the next one with its reply. The
    inference calls are parameters: `chat` as a function of the request it
    is given, the image analysis and the transcription as their outcomes
    (`None` when the call throws). */
module ConversationManager {
  import opened Wrappers
  import opened Text
  import opened Patterns
  import Clock
  import opened DatabaseService
  import opened OpenAiService

  // ---------------------------------------------------------------------------
  // State

  /** A `pendingActions` entry. `meal_registration` is the only type ever
      created, so the type test in `checkPendingActions` always passes. */
  datatype PendingAction = MealRegistration(foodName: string, calories: nat, imageAnalyzed: bool, timestamp: int)

  datatype Session = Session(pending: map<string, PendingAction>, db: Db)

  /** How long a pending confirmation stays answerable, in milliseconds. */
  const PendingTtl: int := 300000

  /** `Date.now() - pendingAction.timestamp > 300000`. */
  predicate Expired(a: PendingAction, now: Clock.Now) {
    now.ms - a.timestamp > PendingTtl
  }

  // ---------------------------------------------------------------------------
  // determineMealType

  /** `determineMealType`: half-open hour ranges, dinner for everything else. */
  function DetermineMealType(hour: int): (r: string)
    ensures r in {"breakfast", "lunch", "snack", "dinner"}
    ensures r == "breakfast" <==> 5 <= hour < 11
    ensures r == "lunch" <==> 11 <= hour < 15
    ensures r == "snack" <==> 15 <= hour < 19
    ensures r == "dinner" <==> hour < 5 || 19 <= hour
  {
    if hour >= 5 && hour < 11 then "breakfast"
    else if hour >= 11 && hour < 15 then "lunch"
    else if hour >= 15 && hour < 19 then "snack"
    else "dinner"
  }

  // ---------------------------------------------------------------------------
  // checkPendingActions

  /** `messageText.toLowerCase().trim()`. */
  function Normalized(text: string): string {
    Trim(Lower(text))
  }

  /** The confirming tokens, checked first. */
  predicate Affirmative(text: string) {
    var t := Normalized(text);
    Contains(t, "sim") || Contains(t, "quero") || Contains(t, "registr")
  }

  /** The declining tokens, checked only when no confirming token is present. */
  predicate Negative(text: string) {
    var t := Normalized(text);
    Contains(t, "não") || Contains(t, "nao")
  }

  const ConfirmLead: string := "Perfeito! Registrei \""
  const ConfirmTail: string := ". Continue assim! \U{1F4AA}"

  function ConfirmReply(foodName: string, mealType: string): string {
    ConfirmLead + foodName + "\" no seu " + mealType + ConfirmTail
  }

  const DeclineReply: string := "Tudo bem! Não vou registrar. Se precisar de algo, é só chamar!"

  /** The store after a confirmation: the phone's user (created if need be)
      and exactly one new meal at the end, carrying the pending entry's
      fields, the slot of the hour and the clock's date and time. */
  predicate RecordsOneMeal(db: Db, db': Db, phone: string, a: PendingAction, now: Clock.Now) {
    var (db1, u) := GetOrCreateUser(db, phone, now.stamp);
    && db'.users == db1.users && db'.history == db.history && db'.reminders == db.reminders
    && |db'.meals| == |db.meals| + 1 && db'.meals[..|db.meals|] == db.meals
    && db'.meals[|db.meals|] == Meal(u.id, DetermineMealType(now.hour), a.foodName, a.calories,
                                      now.isoDate, now.localTime, if a.imageAnalyzed then 1 else 0)
  }

  /** `checkPendingActions(phone, text)`: null without an entry; an entry
      older than the time to live is dropped and null returned; otherwise a
      confirming text records the meal and a declining one drops the entry,
      each with its reply, and any other text leaves everything as it was. */
  function CheckPending(s: Session, phone: string, text: string, now: Clock.Now): (r: (Session, Option<string>))
    ensures phone !in s.pending ==> r == (s, None)
    ensures phone in s.pending && Expired(s.pending[phone], now) ==>
      r == (s.(pending := s.pending - {phone}), None)
    ensures phone in s.pending && !Expired(s.pending[phone], now) && Affirmative(text) ==>
      && r.0.pending == s.pending - {phone}
      && RecordsOneMeal(s.db, r.0.db, phone, s.pending[phone], now)
      && r.1 == Some(ConfirmReply(s.pending[phone].foodName, DetermineMealType(now.hour)))
    ensures phone in s.pending && !Expired(s.pending[phone], now) && !Affirmative(text) && Negative(text) ==>
      r == (s.(pending := s.pending - {phone}), Some(DeclineReply))
    ensures phone in s.pending && !Expired(s.pending[phone], now) && !Affirmative(text) && !Negative(text) ==>
      r == (s, None)
  {
    if phone !in s.pending then (s, None)
    else
      var a := s.pending[phone];
      if Expired(a, now) then (s.(pending := s.pending - {phone}), None)
      else if Affirmative(text) then
        var (db1, u) := GetOrCreateUser(s.db, phone, now.stamp);
        MemberExists(db1, u);
        var mealType := DetermineMealType(now.hour);
        var (db2, _) := AddMeal(db1, u.id, MealData(mealType, a.foodName, a.calories, None, None, a.imageAnalyzed), now);
        (Session(s.pending - {phone}, db2), Some(ConfirmReply(a.foodName, mealType)))
      else if Negative(text) then (s.(pending := s.pending - {phone}), Some(DeclineReply))
      else (s, None)
  }

  /** Whatever the text, the entries of other phones are untouched and no
      entry is ever added. */
  lemma {:induction false} CheckPendingIsLocal(s: Session, phone: string, text: string, now: Clock.Now)
    ensures var r := CheckPending(s, phone, text, now).0;
      && r.pending.Keys <= s.pending.Keys
      && forall q | q in s.pending && q != phone :: q in r.pending && r.pending[q] == s.pending[q]
  {
    var r := CheckPending(s, phone, text, now).0;
    assert r.pending == s.pending || r.pending == s.pending - {phone};
  }

  /** "Não quero" confirms: the confirming tokens are checked before the
      declining ones, and "quero" is among them. */
  lemma NaoQueroConfirms()
    ensures Affirmative("Não quero") && Negative("Não quero")
  {
    var t := Normalized("Não quero");
    assert Lower("Não quero") == "não quero";
    assert TrimStart("não quero") == "não quero";
    assert TrimEnd("não quero") == "não quero";
    assert t == "não quero";
    assert OccursAt(t, "quero", 4);
    assert OccursAt(t, "não", 0);
    ContainsMeansOccurs(t, "quero");
    ContainsMeansOccurs(t, "não");
  }

  /** The time to live is compared strictly: an entry exactly 300000 ms old
      is still live, and a confirmation at that instant records the meal. */
  lemma StillLiveAtTtl(s: Session, phone: string, text: string, now: Clock.Now)
    requires phone in s.pending && now.ms == s.pending[phone].timestamp + PendingTtl
    requires Affirmative(text)
    ensures var (s', reply) := CheckPending(s, phone, text, now);
      && |s'.db.meals| == |s.db.meals| + 1
      && reply == Some(ConfirmReply(s.pending[phone].foodName, DetermineMealType(now.hour)))
  {
  }

  // ---------------------------------------------------------------------------
  // handleImageMessage

  /** `if (calories)`: a number that is present and not zero. */
  predicate CaloriesTruthy(c: Option<nat>) {
    c.Some? && c.value != 0
  }

  const FollowUpLead: string := "\n\nGostaria de registrar \""
  const FollowUpTail: string :=
    " kcal) na sua refeição de hoje? Responda \"sim\" para registrar ou \"não\" se preferir não registrar."

  function FollowUp(foodName: string, calories: nat): string {
    FollowUpLead + foodName + "\" (" + NatToString(calories) + FollowUpTail
  }

  const ImageApology: string :=
    "Desculpe, tive dificuldade em analisar esta imagem. Pode tentar enviar novamente ou descrever o que comeu?"

  /** The offer made after a successful analysis: with a truthy calorie
      figure the phone's entry is replaced by a fresh one carrying the food
      name and calories, and the reply asks for confirmation naming both;
      otherwise the map is left alone and the reply is the analysis. */
  function Offer(pending: map<string, PendingAction>, phone: string, analysis: string, now: Clock.Now)
    : (r: (map<string, PendingAction>, string))
    ensures var calories := ExtractCaloriesFromText(analysis);
      CaloriesTruthy(calories) ==>
        && r.0.Keys == pending.Keys + {phone}
        && r.0[phone] == MealRegistration(ExtractFoodName(analysis), calories.value, true, now.ms)
        && (forall q | q in pending && q != phone :: r.0[q] == pending[q])
        && r.1 == analysis + FollowUp(ExtractFoodName(analysis), calories.value)
    ensures !CaloriesTruthy(ExtractCaloriesFromText(analysis)) ==> r == (pending, analysis)
  {
    var calories := ExtractCaloriesFromText(analysis);
    var foodName := ExtractFoodName(analysis);
    if CaloriesTruthy(calories) then
      (pending[phone := MealRegistration(foodName, calories.value, true, now.ms)], analysis + FollowUp(foodName, calories.value))
    else
      (pending, analysis)
  }

  /** `handleImageMessage(phone, image, mime, caption)`, given the outcome of
      `analyzeImage`. The user is created before the analysis, so a failed
      analysis still leaves the user behind. A successful one is stored as two
      turns and followed by the offer. History is not trimmed here and no
      meal is recorded. */
  function HandleImage(s: Session, phone: string, caption: string, analysis: Option<string>, now: Clock.Now): (r: (Session, string))
    ensures var (db1, u) := GetOrCreateUser(s.db, phone, now.stamp);
      && r.0.db == db1.(history := r.0.db.history)
      && (analysis.None? ==> r == (s.(db := db1), ImageApology))
      && (analysis.Some? ==>
            r.0.db.history == db1.history + [Turn(u.id, UserRole, "[Imagem enviada] " + caption), Turn(u.id, AssistantRole, analysis.value)])
    ensures analysis.Some? ==> (r.0.pending, r.1) == Offer(s.pending, phone, analysis.value, now)
  {
    var (db1, u) := GetOrCreateUser(s.db, phone, now.stamp);
    MemberExists(db1, u);
    match analysis
    case None => (s.(db := db1), ImageApology)
    case Some(text) =>
      var t1 := Turn(u.id, UserRole, "[Imagem enviada] " + caption);
      var t2 := Turn(u.id, AssistantRole, text);
      var db2 := AddTurn(db1, u.id, UserRole, t1.content);
      var db3 := AddTurn(db2, u.id, AssistantRole, text);
      assert db3.history == db1.history + [t1, t2];
      assert db3 == db1.(history := db3.history);
      var (pending, reply) := Offer(s.pending, phone, text, now);
      (Session(pending, db3), reply)
  }

  /** An analysis with calories, confirmed within the time to live, records
      exactly one meal with the analysed food and calories, flagged as coming
      from an image. */
  lemma {:induction false} ImageThenConfirm(s: Session, phone: string, caption: string, analysis: string,
                                            now1: Clock.Now, now2: Clock.Now, text: string)
    requires CaloriesTruthy(ExtractCaloriesFromText(analysis))
    requires now2.ms - now1.ms <= PendingTtl
    requires Affirmative(text)
    ensures var (s1, _) := HandleImage(s, phone, caption, Some(analysis), now1);
      var (s2, reply) := CheckPending(s1, phone, text, now2);
      && phone !in s2.pending
      && |s2.db.meals| == |s.db.meals| + 1
      && s2.db.meals[|s.db.meals|].foodName == ExtractFoodName(analysis)
      && s2.db.meals[|s.db.meals|].calories == ExtractCaloriesFromText(analysis).value
      && s2.db.meals[|s.db.meals|].imageAnalyzed == 1
      && reply == Some(ConfirmReply(ExtractFoodName(analysis), DetermineMealType(now2.hour)))
  {
    var (s1, _) := HandleImage(s, phone, caption, Some(analysis), now1);
    assert s1.db.meals == s.db.meals;
    assert phone in s1.pending && !Expired(s1.pending[phone], now2);
    var (s2, reply) := CheckPending(s1, phone, text, now2);
    assert RecordsOneMeal(s1.db, s2.db, phone, s1.pending[phone], now2);
  }

  // ---------------------------------------------------------------------------
  // handleMessage / handleAudioMessage

  const MessageApology: string := "Desculpe, tive um problema ao processar sua mensagem. Pode tentar novamente?"
  const AudioApology: string := "Desculpe, tive um problema ao processar seu áudio. Pode tentar novamente?"

  /** `conversationHistory.map(msg => ({ role, content }))`. */
  function Messages(h: seq<Turn>): (r: seq<ChatMessage>)
    ensures |r| == |h|
    ensures forall k | 0 <= k < |h| :: r[k] == ChatMessage(h[k].role, h[k].content)
  {
    seq(|h|, k requires 0 <= k < |h| => ChatMessage(h[k].role, h[k].content))
  }

  /** The `userContext` built from the user row as it was read at the start. */
  function ContextOf(u: User, todayMeals: seq<Meal>): UserContext {
    UserContext(u.name, u.weight, u.height, u.age, u.gender, u.goal, todayMeals)
  }

  /** What `chat` receives: the 15 most recent turns and then the text again. */
  function RequestFor(db: Db, u: User, said: string, today: string): (req: ChatRequest)
    ensures |req.messages| == |GetConversationHistory(db, u.id, 15)| + 1 <= 16
    ensures req.messages[|req.messages| - 1] == ChatMessage(UserRole, said)
    ensures req.context == ContextOf(u, GetTodayMeals(db, u.id, today))
  {
    ChatRequest(Messages(GetConversationHistory(db, u.id, 15)) + [ChatMessage(UserRole, said)],
                ContextOf(u, GetTodayMeals(db, u.id, today)))
  }

  /** The text is stored before the history is read, so a text message
      reaches `chat` twice: as the newest history turn and as the appended
      message. */
  lemma {:induction false} TextSentTwice(db: Db, u: User, text: string, today: string)
    requires UserExists(db, u.id)
    ensures var req := RequestFor(AddTurn(db, u.id, UserRole, text), u, text, today);
      && |req.messages| >= 2
      && req.messages[|req.messages| - 2] == req.messages[|req.messages| - 1] == ChatMessage(UserRole, text)
  {
    var db1 := AddTurn(db, u.id, UserRole, text);
    var turns := UserTurns(db1.history, u.id);
    var h := GetConversationHistory(db1, u.id, 15);
    assert turns[|turns| - 1] == Turn(u.id, UserRole, text);
    assert |h| >= 1;
    assert h[|h| - 1] == turns[|turns| - 1];
    var req := RequestFor(db1, u, text, today);
    assert req.messages[|req.messages| - 2] == Messages(h)[|h| - 1];
  }

  /** The steps `handleMessage` and `handleAudioMessage` share once the user
      exists: store the user's turn, call `chat`, and on success store the
      reply, trim the history to 50 turns and apply the profile fields found
      in what was said. Extraction is not awaited, so whatever it does the
      reply is `chat`'s answer. */
  function Converse(db: Db, u: User, stored: string, said: string, chat: ChatRequest -> Option<string>,
                    now: Clock.Now, apology: string): (r: (Db, string))
    requires UserExists(db, u.id)
    ensures var db1 := AddTurn(db, u.id, UserRole, stored);
      chat(RequestFor(db1, u, said, now.isoDate)).None? ==> r == (db1, apology)
    ensures var answer := chat(RequestFor(AddTurn(db, u.id, UserRole, stored), u, said, now.isoDate));
      answer.Some? ==>
        && r.1 == answer.value
        && UserTurns(r.0.history, u.id)
             == LastN(UserTurns(db.history, u.id) + [Turn(u.id, UserRole, stored), Turn(u.id, AssistantRole, answer.value)], 50)
        && |UserTurns(r.0.history, u.id)| >= 1
        && UserTurns(r.0.history, u.id)[|UserTurns(r.0.history, u.id)| - 1] == Turn(u.id, AssistantRole, answer.value)
    ensures var answer := chat(RequestFor(AddTurn(db, u.id, UserRole, stored), u, said, now.isoDate));
      answer.Some? ==> r.0.users == ApplyExtraction(db, u.id, said, now.stamp).users
    ensures forall v | v != u.id :: UserTurns(r.0.history, v) == UserTurns(db.history, v)
    ensures r.0.meals == db.meals && r.0.reminders == db.reminders
  {
    var db1 := AddTurn(db, u.id, UserRole, stored);
    match chat(RequestFor(db1, u, said, now.isoDate))
    case None => (db1, apology)
    case Some(answer) => (StoreAnswer(db, u.id, stored, answer, said, now.stamp), answer)
  }

  /** What `handleMessage` stores once `chat` has answered: both turns, the
      history trimmed to 50, then the profile fields found in what was said. */
  function StoreAnswer(db: Db, id: UserId, stored: string, answer: string, said: string, stamp: string): (r: Db)
    requires UserExists(db, id)
    ensures UserTurns(r.history, id)
         == LastN(UserTurns(db.history, id) + [Turn(id, UserRole, stored), Turn(id, AssistantRole, answer)], 50)
    ensures |UserTurns(r.history, id)| >= 1
         && UserTurns(r.history, id)[|UserTurns(r.history, id)| - 1] == Turn(id, AssistantRole, answer)
    ensures r.users == ApplyExtraction(db, id, said, stamp).users
    ensures forall v | v != id :: UserTurns(r.history, v) == UserTurns(db.history, v)
    ensures r.meals == db.meals && r.reminders == db.reminders
  {
    var db1 := AddTurn(db, id, UserRole, stored);
    var db2 := AddTurn(db1, id, AssistantRole, answer);
    assert UserTurns(db2.history, id)
        == UserTurns(db.history, id) + [Turn(id, UserRole, stored), Turn(id, AssistantRole, answer)];
    var db3 := ClearOldConversationHistory(db2, id, 50);
    var db4 := ApplyExtraction(db3, id, said, stamp);
    assert db3.users == db.users;
    ExtractionReadsOnlyUsers(db3, db, id, said, stamp);
    assert db4.history == db3.history && db4.meals == db.meals && db4.reminders == db.reminders;
    db4
  }

  /** Whatever `chat` does, the reply is the apology or the newest turn stored
      for the user, which is then the assistant's. */
  lemma ConverseReply(db: Db, u: User, stored: string, said: string, chat: ChatRequest -> Option<string>,
                      now: Clock.Now, apology: string)
    requires UserExists(db, u.id)
    ensures var r := Converse(db, u, stored, said, chat, now, apology);
      var turns := UserTurns(r.0.history, u.id);
      |turns| >= 1 && (r.1 == apology || turns[|turns| - 1] == Turn(u.id, AssistantRole, r.1))
  {
    var db1 := AddTurn(db, u.id, UserRole, stored);
    if chat(RequestFor(db1, u, said, now.isoDate)).None? {
      assert UserTurns(db1.history, u.id) == UserTurns(db.history, u.id) + [Turn(u.id, UserRole, stored)];
    }
  }

  /** `handleMessage(phone, text)`. */
  function HandleMessage(s: Session, phone: string, text: string, chat: ChatRequest -> Option<string>,
                         now: Clock.Now): (r: (Session, string))
    ensures r.0.pending == s.pending && r.0.db.meals == s.db.meals
    ensures var (db1, u) := GetOrCreateUser(s.db, phone, now.stamp);
      var turns := UserTurns(r.0.db.history, u.id);
      && |turns| >= 1
      && (r.1 == MessageApology || turns[|turns| - 1] == Turn(u.id, AssistantRole, r.1))
    ensures var (db1, u) := GetOrCreateUser(s.db, phone, now.stamp);
      && UserExists(db1, u.id)
      && r == (s.(db := Converse(db1, u, text, text, chat, now, MessageApology).0),
               Converse(db1, u, text, text, chat, now, MessageApology).1)
  {
    var (db1, u) := GetOrCreateUser(s.db, phone, now.stamp);
    MemberExists(db1, u);
    ConverseReply(db1, u, text, text, chat, now, MessageApology);
    var (db2, reply) := Converse(db1, u, text, text, chat, now, MessageApology);
    (s.(db := db2), reply)
  }

  /** `handleAudioMessage(phone, audio)`, given the outcome of
      `transcribeAudio`: the turn is stored as "[Áudio] " and the
      transcription, and `chat` and the extraction see the bare
      transcription. */
  function HandleAudio(s: Session, phone: string, transcription: Option<string>,
                       chat: ChatRequest -> Option<string>, now: Clock.Now): (r: (Session, string))
    ensures r.0.pending == s.pending && r.0.db.meals == s.db.meals
    ensures transcription.None? ==>
      r == (s.(db := GetOrCreateUser(s.db, phone, now.stamp).0), AudioApology)
    ensures transcription.Some? ==>
      var (db1, u) := GetOrCreateUser(s.db, phone, now.stamp);
      var turns := UserTurns(r.0.db.history, u.id);
      && |turns| >= 1
      && (r.1 == AudioApology || turns[|turns| - 1] == Turn(u.id, AssistantRole, r.1))
    ensures transcription.Some? ==>
      var (db1, u) := GetOrCreateUser(s.db, phone, now.stamp);
      && UserExists(db1, u.id)
      && r == (s.(db := Converse(db1, u, "[Áudio] " + transcription.value, transcription.value, chat, now, AudioApology).0),
               Converse(db1, u, "[Áudio] " + transcription.value, transcription.value, chat, now, AudioApology).1)
  {
    var (db1, u) := GetOrCreateUser(s.db, phone, now.stamp);
    MemberExists(db1, u);
    match transcription
    case None => (s.(db := db1), AudioApology)
    case Some(t) =>
      ConverseReply(db1, u, "[Áudio] " + t, t, chat, now, AudioApology);
      var (db2, reply) := Converse(db1, u, "[Áudio] " + t, t, chat, now, AudioApology);
      (s.(db := db2), reply)
  }

  // ---------------------------------------------------------------------------
  // extractAndUpdateUserInfo

  /** `match[1].replace(',', '.')`: the first comma, if any, becomes a point. */
  function DecimalPoint(s: string): (r: string)
    ensures |r| == |s|
    ensures forall k | 0 <= k < |s| :: r[k] == s[k] || (s[k] == ',' && r[k] == '.')
    ensures ',' in s ==> multiset(r)[','] + 1 == multiset(s)[',']
    ensures ',' !in s ==> r == s
    ensures forall k | 0 <= k < |s| && r[k] != s[k] :: ',' !in s[..k]
  {
    match IndexOfChar(s, ',')
    case None => s
    case Some(i) =>
      assert s == s[..i] + [','] + s[i + 1..];
      var r := s[..i] + "." + s[i + 1..];
      assert forall k | 0 <= k < |s| && k != i :: r[k] == s[k];
      r
  }

  const WeightPatterns: seq<Pattern> := [WeightKg, WeightLabel]
  const HeightPatterns: seq<Pattern> := [HeightCm, HeightLabel, HeightThreeDigitsCm, HeightMeters]
  const AgePatterns: seq<Pattern> := [AgeYears, AgeLabel]

  /** The weight: the number before the first "kg", else the number after
      the first "peso". */
  function WeightField(text: string): (r: Option<string>)
    ensures r.Some? <==> Matches(WeightKg, text) || Matches(WeightLabel, text)
    ensures forall k | LeftmostAt(WeightKg, text, k) ::
      r == Some(DecimalPoint(MatchAt(WeightKg, text, k).value.text))
    ensures !Matches(WeightKg, text) ==> forall k | LeftmostAt(WeightLabel, text, k) ::
      r == Some(DecimalPoint(MatchAt(WeightLabel, text, k).value.text))
  {
    match FirstOf(WeightPatterns, text)
    case None => None
    case Some((_, c)) => Some(DecimalPoint(c.text))
  }

  /** The height, or the error of reading group 1 of the fourth alternative,
      which has none: it is reached exactly when neither "cm" nor "altura"
      matches but `1[.,]?\d{2}` does (the third alternative never decides,
      see `ThreeDigitsCmUnreachable`). */
  function HeightField(text: string): (r: Result<Option<string>>)
    ensures r.Failure? <==> !Matches(HeightCm, text) && !Matches(HeightLabel, text) && Matches(HeightMeters, text)
    ensures r.Success? ==> (r.value.Some? <==> Matches(HeightCm, text) || Matches(HeightLabel, text))
  {
    ThreeDigitsCmUnreachable(text);
    match FirstOf(HeightPatterns, text)
    case None => Success(None)
    case Some((_, c)) =>
      if c.NoGroup? then Failure(UndefinedGroup)
      else Success(Some(DecimalPoint(c.text)))
  }

  const UndefinedGroup: string := "TypeError: Cannot read properties of undefined (reading 'replace')"

  /** The height read is the number of the leftmost "cm" match, else of the
      leftmost "altura" match. */
  lemma HeightFromText(text: string)
    ensures forall k | LeftmostAt(HeightCm, text, k) ::
      HeightField(text) == Success(Some(DecimalPoint(MatchAt(HeightCm, text, k).value.text)))
    ensures !Matches(HeightCm, text) ==> forall k | LeftmostAt(HeightLabel, text, k) ::
      HeightField(text) == Success(Some(DecimalPoint(MatchAt(HeightLabel, text, k).value.text)))
  {
    ThreeDigitsCmUnreachable(text);
    var r := FirstOf(HeightPatterns, text);
    assert HeightPatterns[0] == HeightCm && HeightPatterns[1] == HeightLabel;
    forall k | LeftmostAt(HeightCm, text, k)
      ensures HeightField(text) == Success(Some(DecimalPoint(MatchAt(HeightCm, text, k).value.text)))
    {
      assert Matches(HeightCm, text);
      assert r.Some? && r.value.0 == 0;
    }
    if !Matches(HeightCm, text) {
      forall k | LeftmostAt(HeightLabel, text, k)
        ensures HeightField(text) == Success(Some(DecimalPoint(MatchAt(HeightLabel, text, k).value.text)))
      {
        assert Matches(HeightLabel, text);
        assert r.Some? && r.value.0 == 1;
      }
    }
  }

  /** The age: the one or two digits before the first "anos", else after the
      first "idade". */
  function AgeField(text: string): (r: Option<nat>)
    ensures r.Some? <==> Matches(AgeYears, text) || Matches(AgeLabel, text)
    ensures forall k | LeftmostAt(AgeYears, text, k) ::
      r == Some(DigitsValue(MatchAt(AgeYears, text, k).value.text))
    ensures !Matches(AgeYears, text) ==> forall k | LeftmostAt(AgeLabel, text, k) ::
      r == Some(DigitsValue(MatchAt(AgeLabel, text, k).value.text))
  {
    match FirstOf(AgePatterns, text)
    case None => None
    case Some((_, c)) => Some(DigitsValue(c.text))
  }

  predicate MaleWord(lower: string) {
    Contains(lower, "homem") || Contains(lower, "masculino")
  }

  predicate FemaleWord(lower: string) {
    Contains(lower, "mulher") || Contains(lower, "feminino")
  }

  /** The gender read from the lower-cased text; the male words win. */
  function GenderField(lower: string): (r: Option<string>)
    ensures r == Some("male") <==> MaleWord(lower)
    ensures r == Some("female") <==> !MaleWord(lower) && FemaleWord(lower)
    ensures r.None? <==> !MaleWord(lower) && !FemaleWord(lower)
  {
    if MaleWord(lower) then Some("male")
    else if FemaleWord(lower) then Some("female")
    else None
  }

  predicate GainWord(lower: string) {
    Contains(lower, "ganhar massa") || Contains(lower, "ganhar peso") || Contains(lower, "hipertrofia")
  }

  predicate LoseWord(lower: string) {
    Contains(lower, "emagrecer") || Contains(lower, "perder peso") || Contains(lower, "emagrecimento")
  }

  predicate MaintainWord(lower: string) {
    Contains(lower, "manter") || Contains(lower, "manutenção")
  }

  /** The goal read from the lower-cased text, in the priority gain, lose,
      maintain. */
  function GoalField(lower: string): (r: Option<string>)
    ensures r == Some("gain_muscle") <==> GainWord(lower)
    ensures r == Some("lose_weight") <==> !GainWord(lower) && LoseWord(lower)
    ensures r == Some("maintain_weight") <==> !GainWord(lower) && !LoseWord(lower) && MaintainWord(lower)
    ensures r.None? <==> !GainWord(lower) && !LoseWord(lower) && !MaintainWord(lower)
  {
    if GainWord(lower) then Some("gain_muscle")
    else if LoseWord(lower) then Some("lose_weight")
    else if MaintainWord(lower) then Some("maintain_weight")
    else None
  }

  /** The capitalised word after "me chamo", "meu nome é" or "sou". */
  function NameField(text: string): (r: Option<string>)
    ensures r.Some? <==> Matches(NameIntro, text)
    ensures forall k | LeftmostAt(NameIntro, text, k) :: r == Some(MatchAt(NameIntro, text, k).value.text)
    ensures r.Some? ==> |r.value| >= 2
  {
    match FirstMatch(NameIntro, text)
    case None => None
    case Some(c) => Some(c.text)
  }

  /** Nothing in the text feeds any profile field. */
  predicate NothingMentioned(text: string) {
    var lower := Lower(text);
    && !Matches(WeightKg, text) && !Matches(WeightLabel, text)
    && !Matches(HeightCm, text) && !Matches(HeightLabel, text)
    && !Matches(AgeYears, text) && !Matches(AgeLabel, text)
    && !MaleWord(lower) && !FemaleWord(lower)
    && !GainWord(lower) && !LoseWord(lower) && !MaintainWord(lower)
    && !Matches(NameIntro, text)
  }

  /** The `updates` object `extractAndUpdateUserInfo` builds, or the error it
      throws before any update. */
  function ExtractProfileUpdate(text: string): (r: Result<ProfileUpdate>)
    ensures r.Failure? <==> HeightField(text).Failure?
    ensures r.Success? ==>
      && r.value.weight == WeightField(text) && r.value.height == HeightField(text).value
      && r.value.age == AgeField(text) && r.value.name == NameField(text)
      && r.value.gender == GenderField(Lower(text)) && r.value.goal == GoalField(Lower(text))
    ensures r.Success? ==> (r.value.IsEmpty() <==> NothingMentioned(text))
  {
    match HeightField(text)
    case Failure(e) => Failure(e)
    case Success(height) =>
      var lower := Lower(text);
      Success(ProfileUpdate(NameField(text), WeightField(text), height, AgeField(text),
                            GenderField(lower), GoalField(lower)))
  }

  /** What extraction writes depends on the users table alone. */
  lemma ExtractionReadsOnlyUsers(db: Db, db': Db, id: UserId, text: string, stamp: string)
    requires db.users == db'.users
    ensures ApplyExtraction(db, id, text, stamp).users == ApplyExtraction(db', id, text, stamp).users
  {
  }

  /** `extractAndUpdateUserInfo(userId, text)`: the store changes only in the
      user's row, and only when extraction succeeds with a non-empty update. */
  function ApplyExtraction(db: Db, id: UserId, text: string, stamp: string): (r: Db)
    ensures r == db.(users := r.users) && |r.users| == |db.users|
    ensures ExtractProfileUpdate(text).Failure? || NothingMentioned(text) ==> r == db
    ensures ExtractProfileUpdate(text).Success? ==> forall i | 0 <= i < |db.users| ::
      r.users[i] == if db.users[i].id == id && !NothingMentioned(text)
                    then Patched(db.users[i], ExtractProfileUpdate(text).value, stamp)
                    else db.users[i]
    ensures Valid(db) ==> Valid(r)
  {
    match ExtractProfileUpdate(text)
    case Failure(_) => db
    case Success(p) => if p.IsEmpty() then db else UpdateUserProfile(db, id, p, stamp).0
  }

  /** `extractAndUpdateUserInfo` over the update statement as written; an
      update that throws is caught and logged, so the store stays as it was. */
  function ApplyExtractionAsWritten(db: Db, id: UserId, text: string, stamp: string, dqsLiterals: bool): (r: Db)
    ensures dqsLiterals ==> r == ApplyExtraction(db, id, text, stamp)
    ensures !dqsLiterals ==> r == db
  {
    match ExtractProfileUpdate(text)
    case Failure(_) => db
    case Success(p) =>
      if p.IsEmpty() then db
      else match UpdateUserProfileAsWritten(db, id, p, stamp, dqsLiterals)
        case Failure(_) => db
        case Success((db', _)) => db'
  }

  /** Where double-quoted tokens are identifiers only, a message that names a
      profile field never reaches the store, while the intended update
      rewrites the user's row (at least its `updated_at`). */
  lemma ProfileNeverStored(db: Db, id: UserId, text: string, stamp: string, i: nat)
    requires ExtractProfileUpdate(text).Success? && !NothingMentioned(text)
    requires i < |db.users| && db.users[i].id == id && db.users[i].updatedAt != stamp
    ensures ApplyExtractionAsWritten(db, id, text, stamp, false) == db
    ensures ApplyExtraction(db, id, text, stamp) != db
  {
    var r := ApplyExtraction(db, id, text, stamp);
    assert r.users[i].updatedAt == stamp;
  }

  // ---------------------------------------------------------------------------
  // getTodaySummary

  const NoProfileReply: string := "Ainda não tenho informações suas. Vamos começar?"
  const NoMealsReply: string :=
    "Você ainda não registrou nenhuma refeição hoje. Que tal me enviar uma foto do que comeu?"
  const SummaryHeader: string := "Aqui está o resumo das suas refeições de hoje:\n\n"

  /** `mealTypeMap[meal_type] || meal_type`. */
  function MealLabel(mealType: string): string {
    if mealType == "breakfast" then "Café da manhã"
    else if mealType == "lunch" then "Almoço"
    else if mealType == "dinner" then "Jantar"
    else if mealType == "snack" then "Lanche"
    else mealType
  }

  function SummaryLine(m: Meal): string {
    MealLabel(m.mealType) + ": " + m.foodName + " (" + NatToString(m.calories) + " kcal)\n"
  }

  /** One line per meal, in the order given. */
  function SummaryLines(ms: seq<Meal>): string {
    if |ms| == 0 then "" else SummaryLines(ms[..|ms| - 1]) + SummaryLine(ms[|ms| - 1])
  }

  function TotalLine(total: nat): string {
    "\nTotal: " + NatToString(total) + " kcal"
  }

  /** `getTodaySummary(phone)`: onboarding without a profile, a prompt
      without meals today, otherwise the header, one line per meal in time
      order and the total of the user's meals dated today, whatever their
      order in the table. */
  function TodaySummary(db: Db, phone: string, today: string): (r: string)
    ensures GetUserProfile(db, phone).None? ==> r == NoProfileReply
    ensures GetUserProfile(db, phone).Some? ==>
      var id := GetUserProfile(db, phone).value.id;
      && ((forall k | 0 <= k < |db.meals| :: !(db.meals[k].userId == id && db.meals[k].date == today))
            ==> r == NoMealsReply)
      && ((exists k | 0 <= k < |db.meals| :: db.meals[k].userId == id && db.meals[k].date == today) ==>
            r == SummaryHeader + SummaryLines(GetTodayMeals(db, id, today))
                 + TotalLine(SumCalories(MealsOn(db.meals, id, today))))
  {
    match GetUserProfile(db, phone)
    case None => NoProfileReply
    case Some(u) =>
      var meals := GetTodayMeals(db, u.id, today);
      NoMealsToday(db, u.id, today);
      if |meals| == 0 then NoMealsReply
      else
        SumOfPermutation(meals, MealsOn(db.meals, u.id, today));
        SummaryHeader + SummaryLines(meals) + TotalLine(SumCalories(meals))
  }

  /** The summary text as the source builds it: the `reduce` for the total
      first, then the `forEach` producing one line per meal. */
  method BuildSummary(meals: seq<Meal>) returns (summary: string)
    ensures summary == SummaryHeader + SummaryLines(meals) + TotalLine(SumCalories(meals))
  {
    var total := ReduceCalories(meals, 0);
    ReduceIsSum(meals, 0);
    var lines := "";
    var i := 0;
    while i < |meals|
      invariant 0 <= i <= |meals|
      invariant lines == SummaryLines(meals[..i])
    {
      assert meals[..i + 1][..i] == meals[..i];
      lines := lines + SummaryLine(meals[i]);
      i := i + 1;
    }
    assert meals[..|meals|] == meals;
    summary := SummaryHeader + lines + TotalLine(total);
  }
}
