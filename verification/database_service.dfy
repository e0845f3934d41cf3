/** The SQLite store as four in-memory relations: users, meals, conversation
    history and reminder settings. Row order is insertion order; the history's
    creation order is its position in the sequence. User ids are drawn from a
    counter, standing in for `randomblob` ids that never collide. */
module DatabaseService {
  import opened Wrappers
  import opened Text
  import Clock

  type UserId = nat

  datatype User = User(
    id: UserId,
    phone: string,
    name: string,            // DEFAULT ''
    weight: Option<string>,  // REAL, kept as its normalised decimal text
    height: Option<string>,
    age: Option<nat>,
    gender: Option<string>,
    goal: Option<string>,
    createdAt: string,
    updatedAt: string)

  datatype Meal = Meal(
    userId: UserId,
    mealType: string,
    foodName: string,
    calories: nat,
    date: string,
    time: string,
    imageAnalyzed: nat)      // INTEGER 1 or 0

  datatype Role = UserRole | AssistantRole

  datatype Turn = Turn(userId: UserId, role: Role, content: string)

  datatype ReminderSetting = ReminderSetting(userId: UserId, mealType: string, time: string, enabled: bool)

  /** A reminder row joined with its user's phone number and name. */
  datatype ActiveReminder = ActiveReminder(userId: UserId, mealType: string, time: string, phone: string, name: string)

  datatype Db = Db(users: seq<User>, meals: seq<Meal>, history: seq<Turn>, reminders: seq<ReminderSetting>, nextId: nat)

  /** The fields `updateUserProfile` may receive; an absent field is an absent key. */
  datatype ProfileUpdate = ProfileUpdate(
    name: Option<string>,
    weight: Option<string>,
    height: Option<string>,
    age: Option<nat>,
    gender: Option<string>,
    goal: Option<string>)
  {
    /** `Object.keys(updates).length === 0`. */
    predicate IsEmpty() {
      name.None? && weight.None? && height.None? && age.None? && gender.None? && goal.None?
    }
  }

  /** The argument of `addMeal`. */
  datatype MealData = MealData(
    mealType: string,
    foodName: string,
    calories: nat,
    date: Option<string>,
    time: Option<string>,
    imageAnalyzed: bool)

  const EmptyDb := Db([], [], [], [], 0)

  // ---------------------------------------------------------------------------
  // Integrity constraints of the schema

  /** `phone_number TEXT UNIQUE`. */
  predicate UniquePhones(users: seq<User>) {
    forall i, j | 0 <= i < |users| && 0 <= j < |users| && users[i].phone == users[j].phone :: i == j
  }

  /** `id TEXT PRIMARY KEY`, with every id below the next fresh one. */
  predicate FreshIds(users: seq<User>, next: nat) {
    && (forall i | 0 <= i < |users| :: users[i].id < next)
    && (forall i, j | 0 <= i < |users| && 0 <= j < |users| && users[i].id == users[j].id :: i == j)
  }

  /** `UNIQUE(user_id, meal_type)`. */
  predicate UniqueReminderKeys(rs: seq<ReminderSetting>) {
    forall i, j | 0 <= i < |rs| && 0 <= j < |rs| && rs[i].userId == rs[j].userId && rs[i].mealType == rs[j].mealType :: i == j
  }

  predicate Valid(db: Db) {
    UniquePhones(db.users) && FreshIds(db.users, db.nextId) && UniqueReminderKeys(db.reminders)
  }

  predicate UserExists(db: Db, id: UserId) {
    exists i | 0 <= i < |db.users| :: db.users[i].id == id
  }

  /** A user row that is in the table exists under its id. */
  lemma MemberExists(db: Db, u: User)
    requires u in db.users
    ensures UserExists(db, u.id)
  {
    var i :| 0 <= i < |db.users| && db.users[i] == u;
  }

  // ---------------------------------------------------------------------------
  // Users

  function FindByPhone(users: seq<User>, phone: string): (r: Option<nat>)
    ensures r.Some? ==> r.value < |users| && users[r.value].phone == phone
    ensures r.None? ==> forall j | 0 <= j < |users| :: users[j].phone != phone
  {
    if |users| == 0 then None
    else match FindByPhone(users[..|users| - 1], phone)
      case Some(i) => Some(i)
      case None => if users[|users| - 1].phone == phone then Some(|users| - 1) else None
  }

  /** `getUserProfile`: the user with this phone number, never creating one. */
  function GetUserProfile(db: Db, phone: string): (r: Option<User>)
    ensures r.Some? ==> r.value in db.users && r.value.phone == phone
    ensures r.None? <==> forall j | 0 <= j < |db.users| :: db.users[j].phone != phone
  {
    match FindByPhone(db.users, phone)
    case None => None
    case Some(i) => Some(db.users[i])
  }

  function NewUser(id: UserId, phone: string, stamp: string): User {
    User(id, phone, "", None, None, None, None, None, stamp, stamp)
  }

  /** `getOrCreateUser`: the existing user for the phone, or a new one with the
      column defaults. */
  function GetOrCreateUser(db: Db, phone: string, stamp: string): (res: (Db, User))
    ensures res.1.phone == phone
    ensures res.1 in res.0.users
    ensures GetUserProfile(db, phone).Some? ==> res == (db, GetUserProfile(db, phone).value)
    ensures GetUserProfile(db, phone).None? ==>
      && res.1 == NewUser(db.nextId, phone, stamp)
      && res.0 == db.(users := db.users + [res.1], nextId := db.nextId + 1)
    ensures Valid(db) ==> Valid(res.0)
  {
    match GetUserProfile(db, phone)
    case Some(u) => (db, u)
    case None =>
      var u := NewUser(db.nextId, phone, stamp);
      (db.(users := db.users + [u], nextId := db.nextId + 1), u)
  }

  /** Calling `getOrCreateUser` twice for one phone creates at most one user:
      the second call returns the same user and changes nothing. */
  lemma GetOrCreateIdempotent(db: Db, phone: string, stamp1: string, stamp2: string)
    ensures var (db1, u1) := GetOrCreateUser(db, phone, stamp1);
            GetOrCreateUser(db1, phone, stamp2) == (db1, u1)
  {
    if GetUserProfile(db, phone).None? {
      var u := NewUser(db.nextId, phone, stamp1);
      FindAppended(db.users, u, phone);
    }
  }

  /** A user appended for a phone nobody had is the one found for it. */
  lemma FindAppended(users: seq<User>, u: User, phone: string)
    requires FindByPhone(users, phone).None? && u.phone == phone
    ensures FindByPhone(users + [u], phone) == Some(|users|)
  {
    assert (users + [u])[..|users|] == users;
  }

  /** The user after `UPDATE users SET <keys>, updated_at = datetime("now")`. */
  function Patched(u: User, p: ProfileUpdate, stamp: string): (r: User)
    ensures r.id == u.id && r.phone == u.phone && r.createdAt == u.createdAt
    ensures r.updatedAt == stamp
    ensures p.name.None? ==> r.name == u.name
    ensures p.name.Some? ==> r.name == p.name.value
    ensures p.weight.None? ==> r.weight == u.weight
    ensures p.weight.Some? ==> r.weight == p.weight
    ensures p.height.None? ==> r.height == u.height
    ensures p.height.Some? ==> r.height == p.height
    ensures p.age.None? ==> r.age == u.age
    ensures p.age.Some? ==> r.age == p.age
    ensures p.gender.None? ==> r.gender == u.gender
    ensures p.gender.Some? ==> r.gender == p.gender
    ensures p.goal.None? ==> r.goal == u.goal
    ensures p.goal.Some? ==> r.goal == p.goal
  {
    u.(name := p.name.GetOr(u.name),
       weight := if p.weight.Some? then p.weight else u.weight,
       height := if p.height.Some? then p.height else u.height,
       age := if p.age.Some? then p.age else u.age,
       gender := if p.gender.Some? then p.gender else u.gender,
       goal := if p.goal.Some? then p.goal else u.goal,
       updatedAt := stamp)
  }

  function FindById(users: seq<User>, id: UserId): (r: Option<User>)
    ensures r.Some? ==> r.value in users && r.value.id == id
    ensures r.None? ==> forall j | 0 <= j < |users| :: users[j].id != id
  {
    if |users| == 0 then None
    else if users[0].id == id then Some(users[0])
    else FindById(users[1..], id)
  }

  /** `updateUserProfile`: the user with the id gets exactly the given fields
      and a new `updated_at`; every other row and table is unchanged. The
      result is the row read back by id. */
  function UpdateUserProfile(db: Db, id: UserId, p: ProfileUpdate, stamp: string): (res: (Db, Option<User>))
    ensures |res.0.users| == |db.users|
    ensures forall i | 0 <= i < |db.users| ::
      res.0.users[i] == if db.users[i].id == id then Patched(db.users[i], p, stamp) else db.users[i]
    ensures res.0 == db.(users := res.0.users)
    ensures res.1.Some? <==> UserExists(db, id)
    ensures Valid(db) && res.1.Some? ==> res.1.value == Patched(FindById(db.users, id).value, p, stamp)
    ensures Valid(db) ==> Valid(res.0)
  {
    var users := seq(|db.users|, i requires 0 <= i < |db.users| =>
      if db.users[i].id == id then Patched(db.users[i], p, stamp) else db.users[i]);
    var db' := db.(users := users);
    var r := FindById(users, id);
    (db', r)
  }

  const NoSuchColumnNow: string := "no such column: now"

  /** `updateUserProfile` as written: its SET clause ends with
      `updated_at = datetime("now")`, the argument in double quotes. When
      SQLite reads double-quoted tokens only as identifiers (a build with
      `SQLITE_DQS=0`), "now" names no column and `prepare` throws before
      anything is written. `dqsLiterals` says whether the build falls back
      to reading them as string literals. `UpdateUserProfile` is the
      statement with `datetime('now')`, as the schema writes it. */
  function UpdateUserProfileAsWritten(db: Db, id: UserId, p: ProfileUpdate, stamp: string, dqsLiterals: bool)
    : (r: Result<(Db, Option<User>)>)
    ensures r.Success? <==> dqsLiterals
    ensures r.Success? ==> r.value == UpdateUserProfile(db, id, p, stamp)
  {
    if dqsLiterals then Success(UpdateUserProfile(db, id, p, stamp)) else Failure(NoSuchColumnNow)
  }

  // ---------------------------------------------------------------------------
  // Meals

  /** `x || default` for an optional text: absent or empty falls back. */
  function OrDefault(x: Option<string>, default: string): string {
    if x.Some? && x.value != "" then x.value else default
  }

  /** `addMeal`: appends one row. Date and time fall back to the clock's UTC
      date and local time; `imageAnalyzed` is stored as 1 or 0. The user must
      exist (`FOREIGN KEY (user_id) REFERENCES users(id)`). */
  function AddMeal(db: Db, userId: UserId, data: MealData, now: Clock.Now): (res: (Db, Meal))
    requires UserExists(db, userId)
    ensures res.0 == db.(meals := db.meals + [res.1])
    ensures res.1.userId == userId && res.1.mealType == data.mealType
    ensures res.1.foodName == data.foodName && res.1.calories == data.calories
    ensures res.1.date == if data.date.Some? && data.date.value != "" then data.date.value else now.isoDate
    ensures res.1.time == if data.time.Some? && data.time.value != "" then data.time.value else now.localTime
    ensures res.1.imageAnalyzed == 1 <==> data.imageAnalyzed
    ensures res.1.imageAnalyzed == 0 <==> !data.imageAnalyzed
  {
    var m := Meal(userId, data.mealType, data.foodName, data.calories,
                  OrDefault(data.date, now.isoDate), OrDefault(data.time, now.localTime),
                  if data.imageAnalyzed then 1 else 0);
    (db.(meals := db.meals + [m]), m)
  }

  /** SQLite's BINARY collation on text: lexicographic by character. */
  predicate LexLe(a: string, b: string) {
    |a| == 0 || (|b| > 0 && (a[0] < b[0] || (a[0] == b[0] && LexLe(a[1..], b[1..]))))
  }

  lemma {:induction false} LexLeTotal(a: string, b: string)
    ensures LexLe(a, b) || LexLe(b, a)
  {
    if |a| > 0 && |b| > 0 && a[0] == b[0] {
      LexLeTotal(a[1..], b[1..]);
    }
  }

  /** Ascending `meal_time`. */
  predicate SortedByTime(ms: seq<Meal>) {
    forall i | 0 < i < |ms| :: LexLe(ms[i - 1].time, ms[i].time)
  }

  function InsertByTime(m: Meal, ms: seq<Meal>): (r: seq<Meal>)
    requires SortedByTime(ms)
    ensures SortedByTime(r)
    ensures multiset(r) == multiset(ms) + multiset{m}
    ensures |r| > 0 && (r[0] == m || (|ms| > 0 && r[0] == ms[0]))
  {
    if |ms| == 0 then [m]
    else if LexLe(m.time, ms[0].time) then [m] + ms
    else
      var rest := InsertByTime(m, ms[1..]);
      LexLeTotal(m.time, ms[0].time);
      assert ms == [ms[0]] + ms[1..];
      [ms[0]] + rest
  }

  function SortByTime(ms: seq<Meal>): (r: seq<Meal>)
    ensures SortedByTime(r)
    ensures multiset(r) == multiset(ms)
  {
    if |ms| == 0 then []
    else
      assert ms == [ms[0]] + ms[1..];
      InsertByTime(ms[0], SortByTime(ms[1..]))
  }

  /** `WHERE user_id = ? AND meal_date = ?`, keeping table order. */
  function MealsOn(ms: seq<Meal>, userId: UserId, date: string): (r: seq<Meal>)
    ensures forall m :: multiset(r)[m] == if m.userId == userId && m.date == date then multiset(ms)[m] else 0
  {
    if |ms| == 0 then []
    else
      var last := ms[|ms| - 1];
      assert ms == ms[..|ms| - 1] + [last];
      MealsOn(ms[..|ms| - 1], userId, date) + (if last.userId == userId && last.date == date then [last] else [])
  }

  /** `getTodayMeals`: exactly the user's meals dated today (with multiplicity),
      in ascending `meal_time`. */
  function GetTodayMeals(db: Db, userId: UserId, today: string): (r: seq<Meal>)
    ensures SortedByTime(r)
    ensures forall m :: multiset(r)[m] == if m.userId == userId && m.date == today then multiset(db.meals)[m] else 0
  {
    SortByTime(MealsOn(db.meals, userId, today))
  }

  /** No meal of the user is dated today exactly when today's list is empty. */
  lemma NoMealsToday(db: Db, userId: UserId, today: string)
    ensures |GetTodayMeals(db, userId, today)| == 0
      <==> forall k | 0 <= k < |db.meals| :: !(db.meals[k].userId == userId && db.meals[k].date == today)
  {
    var r := GetTodayMeals(db, userId, today);
    if |r| > 0 {
      var m := r[0];
      assert multiset(r)[m] > 0;
      assert m in db.meals;
    }
    forall k | 0 <= k < |db.meals| && db.meals[k].userId == userId && db.meals[k].date == today
      ensures |r| > 0
    {
      var m := db.meals[k];
      assert multiset(db.meals)[m] > 0;
      assert multiset(r)[m] > 0;
    }
  }

  /** Writing a meal dated today and reading today's meals returns it with the
      same field values. */
  lemma AddMealThenRead(db: Db, userId: UserId, data: MealData, now: Clock.Now)
    requires UserExists(db, userId)
    requires data.date.None?
    ensures var (db', m) := AddMeal(db, userId, data, now);
            && m in GetTodayMeals(db', userId, now.isoDate)
            && m.foodName == data.foodName && m.calories == data.calories && m.mealType == data.mealType
  {
    var (db', m) := AddMeal(db, userId, data, now);
    assert multiset(db'.meals)[m] > 0;
    assert multiset(GetTodayMeals(db', userId, now.isoDate))[m] > 0;
  }

  /** The sum of calories, recursively. */
  function SumCalories(ms: seq<Meal>): nat {
    if |ms| == 0 then 0 else SumCalories(ms[..|ms| - 1]) + ms[|ms| - 1].calories
  }

  lemma {:induction false} SumAppend(a: seq<Meal>, b: seq<Meal>)
    ensures SumCalories(a + b) == SumCalories(a) + SumCalories(b)
    decreases |b|
  {
    if |b| == 0 {
      assert a + b == a;
    } else {
      assert (a + b)[..|a + b| - 1] == a + b[..|b| - 1];
      SumAppend(a, b[..|b| - 1]);
    }
  }

  /** Taking the meal at position `i` out of a list removes one copy of it. */
  lemma RemoveAt(b: seq<Meal>, i: nat)
    requires i < |b|
    ensures multiset(b[..i] + b[i + 1..]) == multiset(b) - multiset{b[i]}
  {
    assert b == b[..i] + [b[i]] + b[i + 1..];
  }

  /** Taking the meal at position `i` out of a list lowers the sum by its calories. */
  lemma SumRemoveAt(b: seq<Meal>, i: nat)
    requires i < |b|
    ensures SumCalories(b) == SumCalories(b[..i] + b[i + 1..]) + b[i].calories
  {
    var front, back := b[..i], b[i + 1..];
    assert b == front + [b[i]] + back;
    SumAppend(front + [b[i]], back);
    SumAppend(front, [b[i]]);
    SumAppend(front, back);
    assert SumCalories([b[i]]) == b[i].calories by { assert [b[i]][..0] == []; }
  }

  /** The sum does not depend on the order of the meals. */
  lemma {:induction false} SumOfPermutation(a: seq<Meal>, b: seq<Meal>)
    requires multiset(a) == multiset(b)
    ensures SumCalories(a) == SumCalories(b)
    decreases |a|
  {
    if |a| == 0 {
      assert |multiset(b)| == 0;
    } else {
      var x := a[|a| - 1];
      var init := a[..|a| - 1];
      assert a == init + [x];
      assert multiset(init) == multiset(a) - multiset{x};
      assert x in multiset(b);
      var i :| 0 <= i < |b| && b[i] == x;
      RemoveAt(b, i);
      SumRemoveAt(b, i);
      SumOfPermutation(init, b[..i] + b[i + 1..]);
    }
  }

  /** `meals.reduce((sum, meal) => sum + meal.calories, acc)`: a left fold. */
  function ReduceCalories(ms: seq<Meal>, acc: nat): nat {
    if |ms| == 0 then acc else ReduceCalories(ms[1..], acc + ms[0].calories)
  }

  /** The left fold the source writes computes the sum. */
  lemma {:induction false} ReduceIsSum(ms: seq<Meal>, acc: nat)
    ensures ReduceCalories(ms, acc) == acc + SumCalories(ms)
  {
    if |ms| > 0 {
      ReduceIsSum(ms[1..], acc + ms[0].calories);
      SumFront(ms);
    }
  }

  lemma {:induction false} SumFront(ms: seq<Meal>)
    requires |ms| > 0
    ensures SumCalories(ms) == ms[0].calories + SumCalories(ms[1..])
  {
    if |ms| > 1 {
      assert ms[1..][..|ms[1..]| - 1] == ms[..|ms| - 1][1..];
      SumFront(ms[..|ms| - 1]);
    }
  }

  // ---------------------------------------------------------------------------
  // Conversation history

  /** `addConversationMessage`: appends one turn; the user must exist. */
  function AddTurn(db: Db, userId: UserId, role: Role, content: string): (r: Db)
    requires UserExists(db, userId)
    ensures r == db.(history := db.history + [Turn(userId, role, content)])
    ensures UserTurns(r.history, userId) == UserTurns(db.history, userId) + [Turn(userId, role, content)]
    ensures forall v | v != userId :: UserTurns(r.history, v) == UserTurns(db.history, v)
  {
    var h := db.history + [Turn(userId, role, content)];
    assert h[..|h| - 1] == db.history;
    db.(history := h)
  }

  /** The turns of one user, oldest first. */
  function UserTurns(h: seq<Turn>, u: UserId): (r: seq<Turn>)
    ensures |r| <= |h|
    ensures forall k | 0 <= k < |r| :: r[k].userId == u
  {
    if |h| == 0 then []
    else UserTurns(h[..|h| - 1], u) + (if h[|h| - 1].userId == u then [h[|h| - 1]] else [])
  }

  lemma {:induction false} UserTurnsFront(h: seq<Turn>, u: UserId)
    requires |h| > 0
    ensures UserTurns(h, u) == (if h[0].userId == u then [h[0]] else []) + UserTurns(h[1..], u)
  {
    if |h| > 1 {
      assert h[1..][..|h[1..]| - 1] == h[..|h| - 1][1..];
      UserTurnsFront(h[..|h| - 1], u);
    }
  }

  /** The last `n` elements (all of them when there are fewer). */
  function LastN<T>(xs: seq<T>, n: nat): (r: seq<T>)
    ensures |r| == if n < |xs| then n else |xs|
  {
    if n >= |xs| then xs else xs[|xs| - n..]
  }

  /** `ORDER BY created_at DESC LIMIT n`, walking back from the newest turn. */
  function RecentTurnsDesc(h: seq<Turn>, u: UserId, n: nat): (r: seq<Turn>)
    ensures Reverse(r) == LastN(UserTurns(h, u), n)
  {
    if n == 0 || |h| == 0 then
      []
    else
      var last := h[|h| - 1];
      var older := h[..|h| - 1];
      if last.userId == u then
        var rest := RecentTurnsDesc(older, u, n - 1);
        assert Reverse([last] + rest) == Reverse(rest) + [last];
        [last] + rest
      else
        RecentTurnsDesc(older, u, n)
  }

  function Reverse<T>(xs: seq<T>): (r: seq<T>)
    ensures |r| == |xs|
    ensures forall k | 0 <= k < |xs| :: r[k] == xs[|xs| - 1 - k]
  {
    if |xs| == 0 then [] else Reverse(xs[1..]) + [xs[0]]
  }

  /** `getConversationHistory(userId, limit)`: the `limit` most recent turns of
      the user, oldest first. */
  function GetConversationHistory(db: Db, u: UserId, limit: nat): (r: seq<Turn>)
    ensures |r| == if limit < |UserTurns(db.history, u)| then limit else |UserTurns(db.history, u)|
    ensures r == UserTurns(db.history, u)[|UserTurns(db.history, u)| - |r|..]
  {
    Reverse(RecentTurnsDesc(db.history, u, limit))
  }

  /** Deletes the `n` oldest turns of user `u`, leaving every other turn in place. */
  function DropOldest(h: seq<Turn>, u: UserId, n: nat): (r: seq<Turn>)
  {
    if n == 0 || |h| == 0 then h
    else if h[0].userId == u then DropOldest(h[1..], u, n - 1)
    else [h[0]] + DropOldest(h[1..], u, n)
  }

  lemma {:induction false} DropOldestEffect(h: seq<Turn>, u: UserId, n: nat, v: UserId)
    requires n <= |UserTurns(h, u)|
    ensures v == u ==> UserTurns(DropOldest(h, u, n), v) == UserTurns(h, u)[n..]
    ensures v != u ==> UserTurns(DropOldest(h, u, n), v) == UserTurns(h, v)
  {
    if n == 0 || |h| == 0 {
    } else {
      UserTurnsFront(h, u);
      UserTurnsFront(h, v);
      if h[0].userId == u {
        DropOldestEffect(h[1..], u, n - 1, v);
      } else {
        var r := DropOldest(h[1..], u, n);
        DropOldestEffect(h[1..], u, n, v);
        assert ([h[0]] + r)[1..] == r;
        UserTurnsFront([h[0]] + r, v);
        UserTurnsFront([h[0]] + r, u);
      }
    }
  }

  /** `clearOldConversationHistory(userId, keepLast)`: when the user has more
      than `keepLast` turns, exactly the `keepLast` most recent remain, in
      order; other users' turns and the other tables are untouched. */
  function ClearOldConversationHistory(db: Db, u: UserId, keepLast: nat): (r: Db)
    ensures UserTurns(r.history, u) == LastN(UserTurns(db.history, u), keepLast)
    ensures forall v | v != u :: UserTurns(r.history, v) == UserTurns(db.history, v)
    ensures |UserTurns(db.history, u)| <= keepLast ==> r == db
    ensures r == db.(history := r.history)
  {
    var count := |UserTurns(db.history, u)|;
    if count > keepLast then
      var h := DropOldest(db.history, u, count - keepLast);
      DropOldestEffect(db.history, u, count - keepLast, u);
      forall v | v != u ensures UserTurns(h, v) == UserTurns(db.history, v) {
        DropOldestEffect(db.history, u, count - keepLast, v);
      }
      db.(history := h)
    else
      db
  }

  // ---------------------------------------------------------------------------
  // Reminder settings

  function FindReminder(rs: seq<ReminderSetting>, u: UserId, mealType: string): (r: Option<nat>)
    ensures r.Some? ==> r.value < |rs| && rs[r.value].userId == u && rs[r.value].mealType == mealType
    ensures r.None? ==> forall j | 0 <= j < |rs| :: !(rs[j].userId == u && rs[j].mealType == mealType)
  {
    if |rs| == 0 then None
    else match FindReminder(rs[..|rs| - 1], u, mealType)
      case Some(i) => Some(i)
      case None =>
        if rs[|rs| - 1].userId == u && rs[|rs| - 1].mealType == mealType then Some(|rs| - 1) else None
  }

  /** `setReminderSettings`: an upsert on `(user_id, meal_type)`. Afterwards a
      row for the pair exists with the new time and enabled; rows for other
      pairs are unchanged and the key stays unique. */
  function SetReminderSettings(db: Db, u: UserId, mealType: string, time: string): (r: Db)
    ensures r == db.(reminders := r.reminders)
    ensures exists i | 0 <= i < |r.reminders| :: r.reminders[i] == ReminderSetting(u, mealType, time, true)
    ensures |db.reminders| <= |r.reminders| <= |db.reminders| + 1
    ensures forall j | 0 <= j < |db.reminders| && !(db.reminders[j].userId == u && db.reminders[j].mealType == mealType) ::
      r.reminders[j] == db.reminders[j]
    ensures forall j | |db.reminders| <= j < |r.reminders| :: r.reminders[j] == ReminderSetting(u, mealType, time, true)
    ensures UniqueReminderKeys(db.reminders) ==> UniqueReminderKeys(r.reminders)
  {
    var row := ReminderSetting(u, mealType, time, true);
    match FindReminder(db.reminders, u, mealType)
    case Some(i) =>
      var rs := db.reminders[i := row];
      assert rs[i] == row;
      db.(reminders := rs)
    case None =>
      var rs := db.reminders + [row];
      assert rs[|db.reminders|] == row;
      db.(reminders := rs)
  }

  /** In a valid store, after the upsert the pair has exactly one row. */
  lemma UpsertLeavesOneRow(db: Db, u: UserId, mealType: string, time: string, i: nat, j: nat)
    requires UniqueReminderKeys(db.reminders)
    requires var rs := SetReminderSettings(db, u, mealType, time).reminders;
      i < |rs| && j < |rs| && rs[i].userId == u && rs[i].mealType == mealType
      && rs[j].userId == u && rs[j].mealType == mealType
    ensures i == j
  {
  }

  /** All users with the given id joined with one reminder row. */
  function JoinUsers(rs: ReminderSetting, users: seq<User>): (r: seq<ActiveReminder>)
    ensures forall a :: a in r <==> exists j | 0 <= j < |users| :: users[j].id == rs.userId && a == Joined(rs, users[j])
  {
    if |users| == 0 then []
    else
      var rest := JoinUsers(rs, users[1..]);
      assert forall j | 1 <= j < |users| :: users[j] == users[1..][j - 1];
      (if users[0].id == rs.userId then [Joined(rs, users[0])] else []) + rest
  }

  function Joined(rs: ReminderSetting, u: User): ActiveReminder {
    ActiveReminder(rs.userId, rs.mealType, rs.time, u.phone, u.name)
  }

  /** The rows `getAllActiveReminders` keeps: enabled, with a user to join. */
  predicate Active(rs: ReminderSetting, users: seq<User>) {
    rs.enabled && FindById(users, rs.userId).Some?
  }

  /** The positions of the active rows, in row order. */
  function ActiveIndices(rs: seq<ReminderSetting>, users: seq<User>): (r: seq<nat>)
    ensures forall k | 0 <= k < |r| :: r[k] < |rs| && Active(rs[r[k]], users)
    ensures forall k, l | 0 <= k < l < |r| :: r[k] < r[l]
    ensures forall i | 0 <= i < |rs| && Active(rs[i], users) :: i in r
  {
    if |rs| == 0 then []
    else
      var init := rs[..|rs| - 1];
      assert forall i | 0 <= i < |init| :: init[i] == rs[i];
      ActiveIndices(init, users) + (if Active(rs[|rs| - 1], users) then [|rs| - 1] else [])
  }

  /** `JOIN users ON r.user_id = u.id WHERE r.enabled = 1`, in row order. */
  function ActiveRows(rs: seq<ReminderSetting>, users: seq<User>): (r: seq<ActiveReminder>)
    ensures forall a :: a in r <==>
      exists i, j | 0 <= i < |rs| && 0 <= j < |users| ::
        rs[i].enabled && users[j].id == rs[i].userId && a == Joined(rs[i], users[j])
  {
    if |rs| == 0 then []
    else
      var init := rs[..|rs| - 1];
      var last := rs[|rs| - 1];
      assert forall i | 0 <= i < |init| :: init[i] == rs[i];
      ActiveRows(init, users) + (if last.enabled then JoinUsers(last, users) else [])
  }

  /** `id` is a primary key. */
  predicate UniqueIds(users: seq<User>) {
    forall i, j | 0 <= i < |users| && 0 <= j < |users| && users[i].id == users[j].id :: i == j
  }

  /** With unique ids a reminder row joins with its user, or with nothing. */
  lemma {:induction false} JoinOne(rs: ReminderSetting, users: seq<User>)
    requires UniqueIds(users)
    ensures JoinUsers(rs, users)
      == if FindById(users, rs.userId).Some? then [Joined(rs, FindById(users, rs.userId).value)] else []
  {
    if |users| > 0 {
      var tail := users[1..];
      assert UniqueIds(tail) by {
        forall i, j | 0 <= i < |tail| && 0 <= j < |tail| && tail[i].id == tail[j].id ensures i == j {
          assert users[i + 1].id == users[j + 1].id;
        }
      }
      JoinOne(rs, tail);
      if users[0].id == rs.userId {
        forall j | 0 <= j < |tail| ensures tail[j].id != rs.userId {
          assert users[j + 1].id == tail[j].id;
        }
        assert FindById(tail, rs.userId).None?;
      }
    }
  }

  /** With unique ids, the joined rows are the active rows, one each, in order. */
  lemma {:induction false} ActiveRowsPerRow(rs: seq<ReminderSetting>, users: seq<User>)
    requires UniqueIds(users)
    ensures var idx := ActiveIndices(rs, users);
      && |ActiveRows(rs, users)| == |idx|
      && forall k | 0 <= k < |idx| ::
           ActiveRows(rs, users)[k] == Joined(rs[idx[k]], FindById(users, rs[idx[k]].userId).value)
  {
    if |rs| > 0 {
      var init := rs[..|rs| - 1];
      var last := rs[|rs| - 1];
      ActiveRowsPerRow(init, users);
      JoinOne(last, users);
      var idx0 := ActiveIndices(init, users);
      assert forall k | 0 <= k < |idx0| :: rs[idx0[k]] == init[idx0[k]];
    }
  }

  /** `getAllActiveReminders`: exactly the enabled rows whose user exists, each
      joined with that user's phone number and name. */
  function GetAllActiveReminders(db: Db): (r: seq<ActiveReminder>)
    ensures forall a :: a in r <==>
      exists i, j | 0 <= i < |db.reminders| && 0 <= j < |db.users| ::
        db.reminders[i].enabled && db.users[j].id == db.reminders[i].userId && a == Joined(db.reminders[i], db.users[j])
    ensures Valid(db) ==>
      var idx := ActiveIndices(db.reminders, db.users);
      && |r| == |idx|
      && forall k | 0 <= k < |idx| ::
           r[k] == Joined(db.reminders[idx[k]], FindById(db.users, db.reminders[idx[k]].userId).value)
  {
    var rows := ActiveRows(db.reminders, db.users);
    if Valid(db) then ActiveRowsPerRow(db.reminders, db.users); rows else rows
  }
}
