/** The pure part of the inference client: reading a calorie figure and a food
    name out of an image analysis, and the context block prepended to every chat
    request. The network calls themselves are outside the model; their results
    reach the session manager as parameters. */
module OpenAiService {
  import opened Wrappers
  import opened Text
  import opened Patterns
  import opened DatabaseService

  // ---------------------------------------------------------------------------
  // extractCaloriesFromText

  /** `parseInt` of the group of a digit-run match. */
  function GroupValue(p: Pattern, c: Captured): nat
    requires IntegerPattern(p) && CaptureShape(p, c)
  {
    DigitsValue(c.text)
  }

  /** `extractCaloriesFromText`. */
  function ExtractCaloriesFromText(text: string): Option<nat> {
    match FirstMatch(CaloriesUnit, text)
    case Some(c) => Some(GroupValue(CaloriesUnit, c))
    case None =>
      match FirstMatch(NumberRange, text)
      case Some(c) => Some(GroupValue(NumberRange, c))
      case None => None
  }

  /** The number before the first `kcal`/`calorias` (any case); failing that,
      the second number of the first `a - b` range; failing that, null. */
  lemma CaloriesFromText(text: string)
    ensures ExtractCaloriesFromText(text).Some? <==> Matches(CaloriesUnit, text) || Matches(NumberRange, text)
    ensures forall k | LeftmostAt(CaloriesUnit, text, k) ::
      ExtractCaloriesFromText(text) == Some(GroupValue(CaloriesUnit, MatchAt(CaloriesUnit, text, k).value))
    ensures !Matches(CaloriesUnit, text) ==> forall k | LeftmostAt(NumberRange, text, k) ::
      ExtractCaloriesFromText(text) == Some(GroupValue(NumberRange, MatchAt(NumberRange, text, k).value))
  {
  }

  /** A figure with a unit wins over any range, wherever the range sits. */
  lemma UnitBeatsRange(text: string, k: nat)
    requires LeftmostAt(CaloriesUnit, text, k)
    ensures ExtractCaloriesFromText(text) == Some(DigitsValue(MatchAt(CaloriesUnit, text, k).value.text))
  {
    CaloriesFromText(text);
  }

  // ---------------------------------------------------------------------------
  // extractFoodName

  const UnidentifiedFood: string := "Alimento não identificado"

  /** A line `extractFoodName` takes its name from: not blank, not a refusal
      ("não consigo", "não há" in any case), and matched by `^([^-]+)`. */
  predicate Qualifies(line: string) {
    && Trim(line) != []
    && !Contains(Lower(line), "não consigo")
    && !Contains(Lower(line), "não há")
    && |line| > 0 && line[0] != '-'
  }

  /** The group of `^([^-]+)`: everything before the first `-`. */
  function BeforeDash(line: string): (r: string)
    ensures '-' !in r
    ensures |r| <= |line| && r == line[..|r|]
    ensures |r| < |line| ==> line[|r|] == '-'
  {
    match IndexOfChar(line, '-')
    case None => line
    case Some(i) => line[..i]
  }

  predicate FirstQualifying(lines: seq<string>, k: int) {
    0 <= k < |lines| && Qualifies(lines[k]) && forall j | 0 <= j < k :: !Qualifies(lines[j])
  }

  /** The first line at or after `from` that `ok` accepts: the `for ... of`
      loop with its early `return`. */
  function FirstAccepted(lines: seq<string>, ok: string -> bool, from: nat): (r: Option<nat>)
    requires from <= |lines|
    ensures r.Some? ==> from <= r.value < |lines| && ok(lines[r.value])
    ensures r.Some? ==> forall j | from <= j < r.value :: !ok(lines[j])
    ensures r.None? ==> forall j | from <= j < |lines| :: !ok(lines[j])
    decreases |lines| - from
  {
    if from == |lines| then None
    else if ok(lines[from]) then Some(from)
    else FirstAccepted(lines, ok, from + 1)
  }

  function FoodNameIn(lines: seq<string>): (r: string)
    ensures forall k | FirstQualifying(lines, k) :: r == Trim(BeforeDash(lines[k]))
    ensures (forall k | 0 <= k < |lines| :: !Qualifies(lines[k])) ==> r == UnidentifiedFood
  {
    match FirstAccepted(lines, Qualifies, 0)
    case None => UnidentifiedFood
    case Some(i) =>
      forall k | FirstQualifying(lines, k) ensures k == i {
        assert !(k < i) && !(i < k);
      }
      Trim(BeforeDash(lines[i]))
  }

  /** `extractFoodName`. */
  function ExtractFoodName(text: string): string {
    FoodNameIn(Split(text, '\n'))
  }

  /** The trimmed text before the first `-` of the first qualifying line, or
      "Alimento não identificado" when no line qualifies. */
  lemma FoodNameFromText(text: string)
    ensures forall k | FirstQualifying(Split(text, '\n'), k) :: ExtractFoodName(text) == Trim(BeforeDash(Split(text, '\n')[k]))
    ensures (forall k | 0 <= k < |Split(text, '\n')| :: !Qualifies(Split(text, '\n')[k])) ==> ExtractFoodName(text) == UnidentifiedFood
  {
  }

  // ---------------------------------------------------------------------------
  // buildContextPrompt

  /** The `userContext` object the session manager hands to `chat`. */
  datatype UserContext = UserContext(
    name: string,
    weight: Option<string>,
    height: Option<string>,
    age: Option<nat>,
    gender: Option<string>,
    goal: Option<string>,
    todayMeals: seq<Meal>)

  /** JavaScript truthiness of a stored text. */
  predicate TextTruthy(x: Option<string>) {
    x.Some? && x.value != ""
  }

  /** JavaScript truthiness of a stored REAL given as decimal text: it is 0 exactly
      when no digit is non-zero. */
  predicate NumberTruthy(x: Option<string>) {
    x.Some? && exists k | 0 <= k < |x.value| :: '1' <= x.value[k] <= '9'
  }

  predicate AgeTruthy(x: Option<nat>) {
    x.Some? && x.value != 0
  }

  /** `goalMap[goal] || goal`. */
  function GoalLabel(goal: string): string {
    if goal == "gain_muscle" then "ganhar massa muscular"
    else if goal == "lose_weight" then "emagrecer"
    else if goal == "maintain_weight" then "manter o peso"
    else goal
  }

  const ContextHeader: string := "Contexto do usuário:\n"

  /** The profile lines in their fixed order; a line is present exactly when
      its field is truthy. */
  function ProfileTable(c: UserContext): seq<Option<string>> {
    [ if c.name != "" then Some("- Nome: " + c.name + "\n") else None,
      if NumberTruthy(c.weight) then Some("- Peso: " + c.weight.value + "kg\n") else None,
      if NumberTruthy(c.height) then Some("- Altura: " + c.height.value + "cm\n") else None,
      if AgeTruthy(c.age) then Some("- Idade: " + NatToString(c.age.value) + " anos\n") else None,
      if TextTruthy(c.gender) then Some("- Sexo: " + c.gender.value + "\n") else None,
      if TextTruthy(c.goal) then Some("- Objetivo: " + GoalLabel(c.goal.value) + "\n") else None ]
  }

  /** The present lines of a table, in order. */
  function Present(rows: seq<Option<string>>): string {
    if |rows| == 0 then ""
    else Present(rows[..|rows| - 1]) + (if rows[|rows| - 1].Some? then rows[|rows| - 1].value else "")
  }

  lemma PresentStep(rows: seq<Option<string>>, k: nat)
    requires k < |rows|
    ensures Present(rows[..k + 1]) == Present(rows[..k]) + (if rows[k].Some? then rows[k].value else "")
  {
    assert rows[..k + 1][..k] == rows[..k];
  }

  lemma {:induction false} PresentNone(rows: seq<Option<string>>)
    requires forall k | 0 <= k < |rows| :: rows[k].None?
    ensures Present(rows) == ""
  {
    if |rows| > 0 {
      PresentNone(rows[..|rows| - 1]);
    }
  }

  function ContextMealLine(m: Meal): string {
    "- " + m.mealType + ": " + m.foodName + " (" + NatToString(m.calories) + " kcal)\n"
  }

  function ContextMealLines(ms: seq<Meal>): string {
    if |ms| == 0 then "" else ContextMealLines(ms[..|ms| - 1]) + ContextMealLine(ms[|ms| - 1])
  }

  const MealsHeading: string := "\nRefeições de hoje:\n"
  const TotalLead: string := "Total de calorias hoje: "

  /** The meals block: absent without meals, otherwise one line per meal in
      order and the summed total. */
  function MealsSection(ms: seq<Meal>): string {
    if |ms| == 0 then ""
    else MealsHeading + ContextMealLines(ms)
         + TotalLead + NatToString(SumCalories(ms)) + " kcal\n"
  }

  /** `buildContextPrompt`, written as the source writes it: a header, six
      guarded appends, a `forEach` over the meals and a `reduce` for the total. */
  method BuildContextPrompt(c: UserContext) returns (context: string)
    ensures StartsWith(context, ContextHeader)
    ensures context == ContextHeader + Present(ProfileTable(c)) + MealsSection(c.todayMeals)
  {
    var profile := PresentLines(ProfileTable(c));
    var meals := MealsBlock(c.todayMeals);
    context := ContextHeader + profile;
    context := context + meals;
  }

  /** The six guarded appends, taken in table order: each present row is
      appended, each absent one skipped. */
  method PresentLines(rows: seq<Option<string>>) returns (block: string)
    ensures block == Present(rows)
  {
    block := "";
    var i := 0;
    while i < |rows|
      invariant 0 <= i <= |rows|
      invariant block == Present(rows[..i])
    {
      PresentStep(rows, i);
      if rows[i].Some? {
        block := block + rows[i].value;
      }
      i := i + 1;
    }
    assert rows[..|rows|] == rows;
  }

  /** The meals block: nothing without meals, otherwise the heading, a
      `forEach` appending one line per meal, then the `reduce` total. */
  method MealsBlock(ms: seq<Meal>) returns (block: string)
    ensures block == MealsSection(ms)
  {
    block := "";
    if |ms| > 0 {
      var lines := MealLinesLoop(ms);
      var total := SumLoop(ms);
      block := MealsHeading + lines + TotalLead + NatToString(total) + " kcal\n";
    }
  }

  /** The `forEach` over the meals. */
  method MealLinesLoop(ms: seq<Meal>) returns (lines: string)
    ensures lines == ContextMealLines(ms)
  {
    lines := "";
    var i := 0;
    while i < |ms|
      invariant 0 <= i <= |ms|
      invariant lines == ContextMealLines(ms[..i])
    {
      assert ms[..i + 1][..i] == ms[..i];
      lines := lines + ContextMealLine(ms[i]);
      i := i + 1;
    }
    assert ms[..|ms|] == ms;
  }

  /** `meals.reduce((sum, meal) => sum + meal.calories, 0)`. */
  method SumLoop(ms: seq<Meal>) returns (total: nat)
    ensures total == SumCalories(ms)
  {
    total := 0;
    var j := 0;
    while j < |ms|
      invariant 0 <= j <= |ms|
      invariant total == SumCalories(ms[..j])
    {
      assert ms[..j + 1][..j] == ms[..j];
      total := total + ms[j].calories;
      j := j + 1;
    }
    assert ms[..|ms|] == ms;
  }

  /** With nothing truthy in the profile and no meals, the block is the bare header. */
  lemma BareContext(c: UserContext)
    requires c.name == "" && !NumberTruthy(c.weight) && !NumberTruthy(c.height)
    requires !AgeTruthy(c.age) && !TextTruthy(c.gender) && !TextTruthy(c.goal)
    requires c.todayMeals == []
    ensures ContextHeader + Present(ProfileTable(c)) + MealsSection(c.todayMeals) == ContextHeader
  {
    PresentNone(ProfileTable(c));
  }

  // ---------------------------------------------------------------------------
  // chat

  /** One entry of the `messages` array sent to the chat completion. */
  datatype ChatMessage = ChatMessage(role: Role, content: string)

  /** The arguments of `chat(messages, userContext)`. */
  datatype ChatRequest = ChatRequest(messages: seq<ChatMessage>, context: UserContext)
}
