/** The regular expressions the source evaluates with `String.prototype.match`
    (no `g` flag), each hand-coded as a matcher at one start position, plus one
    leftmost-match search shared by all of them.

    For every pattern below, backtracking cannot produce a match that the greedy
    reading misses: each quantified run (`\d+`, `\s*`, `\d{1,2}`, the optional
    groups) is followed by a character its run cannot contain, so giving a
    character back always exposes a character the next item rejects. The greedy
    reading at each start position is therefore the regex result. */
module Patterns {
  import opened Wrappers
  import opened Text

  /** The regexes, named after the field they feed. */
  datatype Pattern =
    | CaloriesUnit        // /(\d+)\s*(kcal|calorias)/i
    | NumberRange         // /(\d+)\s*-\s*(\d+)/, last group
    | WeightKg            // /(\d+(?:[.,]\d+)?)\s*kg/i
    | WeightLabel         // /peso\s*(?:é|:)?\s*(\d+(?:[.,]\d+)?)/i
    | HeightCm            // /(\d+(?:[.,]\d+)?)\s*cm/i
    | HeightLabel         // /altura\s*(?:é|:)?\s*(\d+(?:[.,]\d+)?)/i
    | HeightThreeDigitsCm // /(\d{3})\s*cm/i
    | HeightMeters        // /1[.,]?\d{2}/  (no capture group)
    | AgeYears            // /(\d{1,2})\s*anos/i
    | AgeLabel            // /idade\s*(?:é|:)?\s*(\d{1,2})/i
    | NameIntro           // /(?:me chamo|meu nome é|sou (?:a |o )?)\s*([A-ZÀ-Ú][a-zà-ú]+)/i

  /** What `match(...)[1]` holds: the first group's text, or `undefined` when
      the pattern has no group. */
  datatype Captured = Group(text: string) | NoGroup

  /** Patterns whose group is a plain run of digits. */
  predicate IntegerPattern(p: Pattern) {
    p == CaloriesUnit || p == NumberRange || p == HeightThreeDigitsCm || p == AgeYears || p == AgeLabel
  }

  /** What the group of a match of `p` looks like. */
  predicate CaptureShape(p: Pattern, c: Captured) {
    if p == HeightMeters then c.NoGroup?
    else c.Group? && |c.text| > 0 && (IntegerPattern(p) ==> AllDigits(c.text))
  }

  /** The end of the run of digits starting at `i`. */
  function DigitRunEnd(s: string, i: nat): (j: nat)
    requires i <= |s|
    ensures i <= j <= |s|
    ensures forall k :: i <= k < j ==> IsDigit(s[k])
    ensures j == |s| || !IsDigit(s[j])
    decreases |s| - i
  {
    if i < |s| && IsDigit(s[i]) then DigitRunEnd(s, i + 1) else i
  }

  /** The end of the run of `\s` characters starting at `i`. */
  function SpaceRunEnd(s: string, i: nat): (j: nat)
    requires i <= |s|
    ensures i <= j <= |s|
    ensures forall k :: i <= k < j ==> IsSpace(s[k])
    ensures j == |s| || !IsSpace(s[j])
    decreases |s| - i
  {
    if i < |s| && IsSpace(s[i]) then SpaceRunEnd(s, i + 1) else i
  }

  /** The end of `\d+(?:[.,]\d+)?` read greedily from a digit at `i`. */
  function NumberEnd(s: string, i: nat): (j: nat)
    requires i < |s| && IsDigit(s[i])
    ensures i < j <= |s|
    ensures j == |s| || !IsDigit(s[j])
  {
    var d := DigitRunEnd(s, i);
    if d + 1 < |s| && (s[d] == '.' || s[d] == ',') && IsDigit(s[d + 1]) then DigitRunEnd(s, d + 1) else d
  }

  /** The end of `\d{1,2}` read greedily from a digit at `i`. */
  function ShortNumberEnd(s: string, i: nat): (j: nat)
    requires i < |s| && IsDigit(s[i])
    ensures i < j <= i + 2 && j <= |s|
    ensures AllDigits(s[i..j])
  {
    if i + 1 < |s| && IsDigit(s[i + 1]) then i + 2 else i + 1
  }

  /** A lower-case literal occurring at `i` under the `i` flag. */
  predicate LiteralAt(s: string, i: nat, lit: string) {
    i + |lit| <= |s| && Lower(s[i..i + |lit|]) == lit
  }

  /** `\s*(?:é|:)?\s*` read greedily from `i`. */
  function LabelGapEnd(s: string, i: nat): (j: nat)
    requires i <= |s|
    ensures i <= j <= |s|
  {
    var a := SpaceRunEnd(s, i);
    var b := if a < |s| && (LowerChar(s[a]) == 'é' || s[a] == ':') then a + 1 else a;
    SpaceRunEnd(s, b)
  }

  /** `[A-ZÀ-Ú]` under the `i` flag: a character whose upper-case form lies in the class. */
  predicate NameStartChar(c: char) {
    ('A' <= c <= 'Z') || ('a' <= c <= 'z') || ('À' <= c <= 'Ú') || ('à' <= c <= 'ú' && c != '÷')
  }

  /** `[a-zà-ú]` under the `i` flag. */
  predicate NameRestChar(c: char) {
    ('A' <= c <= 'Z') || ('a' <= c <= 'z') || ('À' <= c <= 'Ú' && c != '×') || ('à' <= c <= 'ú')
  }

  function NameRunEnd(s: string, i: nat): (j: nat)
    requires i <= |s|
    ensures i <= j <= |s|
    ensures forall k :: i <= k < j ==> NameRestChar(s[k])
    ensures j == |s| || !NameRestChar(s[j])
    decreases |s| - i
  {
    if i < |s| && NameRestChar(s[i]) then NameRunEnd(s, i + 1) else i
  }

  /** Where the name starts after the introduction `me chamo`, `meu nome é` or
      `sou (?:a |o )?` at `i`, if one is there. */
  function IntroEnd(s: string, i: nat): (r: Option<nat>)
    ensures r.Some? ==> i < r.value <= |s|
  {
    if LiteralAt(s, i, "me chamo") then Some(i + 8)
    else if LiteralAt(s, i, "meu nome é") then Some(i + 10)
    else if LiteralAt(s, i, "sou ") then
      if LiteralAt(s, i + 4, "a ") || LiteralAt(s, i + 4, "o ") then Some(i + 6) else Some(i + 4)
    else None
  }

  /** The match of pattern `p` starting exactly at position `i`, if any. */
  function MatchAt(p: Pattern, s: string, i: nat): (r: Option<Captured>)
    ensures r.Some? ==> i < |s| && CaptureShape(p, r.value)
  {
    if i >= |s| then None
    else match p
      case CaloriesUnit => CaloriesAt(s, i)
      case NumberRange => RangeAt(s, i)
      case WeightKg => UnitNumberAt(s, i, "kg")
      case HeightCm => UnitNumberAt(s, i, "cm")
      case WeightLabel => LabelledNumberAt(s, i, "peso")
      case HeightLabel => LabelledNumberAt(s, i, "altura")
      case HeightThreeDigitsCm => ThreeDigitsCmAt(s, i)
      case HeightMeters => if MetersAt(s, i) then Some(NoGroup) else None
      case AgeYears => AgeYearsAt(s, i)
      case AgeLabel => AgeLabelAt(s, i)
      case NameIntro => NameAt(s, i)
  }

  /** `(\d+)\s*(kcal|calorias)` at `i`. */
  function CaloriesAt(s: string, i: nat): (r: Option<Captured>)
    requires i < |s|
    ensures r.Some? ==> r.value.Group? && |r.value.text| > 0 && AllDigits(r.value.text)
  {
    if !IsDigit(s[i]) then None
    else
      var d := DigitRunEnd(s, i);
      var k := SpaceRunEnd(s, d);
      if LiteralAt(s, k, "kcal") || LiteralAt(s, k, "calorias") then Some(Group(s[i..d])) else None
  }

  /** `(\d+)\s*-\s*(\d+)` at `i`, yielding the last group. */
  function RangeAt(s: string, i: nat): (r: Option<Captured>)
    requires i < |s|
    ensures r.Some? ==> r.value.Group? && |r.value.text| > 0 && AllDigits(r.value.text)
  {
    if !IsDigit(s[i]) then None
    else
      var d := DigitRunEnd(s, i);
      var k := SpaceRunEnd(s, d);
      if k < |s| && s[k] == '-' then
        var m := SpaceRunEnd(s, k + 1);
        if m < |s| && IsDigit(s[m]) then Some(Group(s[m..DigitRunEnd(s, m)])) else None
      else None
  }

  /** `(\d{3})\s*cm` at `i`. */
  function ThreeDigitsCmAt(s: string, i: nat): (r: Option<Captured>)
    ensures r.Some? ==> r.value.Group? && |r.value.text| == 3 && AllDigits(r.value.text)
  {
    if i + 3 <= |s| && IsDigit(s[i]) && IsDigit(s[i + 1]) && IsDigit(s[i + 2])
       && LiteralAt(s, SpaceRunEnd(s, i + 3), "cm")
    then Some(Group(s[i..i + 3]))
    else None
  }

  /** `1[.,]?\d{2}` at `i`. */
  predicate MetersAt(s: string, i: nat) {
    i < |s| && s[i] == '1'
    && ((i + 3 < |s| && (s[i + 1] == '.' || s[i + 1] == ',') && IsDigit(s[i + 2]) && IsDigit(s[i + 3]))
        || (i + 2 < |s| && IsDigit(s[i + 1]) && IsDigit(s[i + 2])))
  }

  /** `(\d{1,2})\s*anos` at `i`. */
  function AgeYearsAt(s: string, i: nat): (r: Option<Captured>)
    requires i < |s|
    ensures r.Some? ==> r.value.Group? && 0 < |r.value.text| <= 2 && AllDigits(r.value.text)
  {
    if !IsDigit(s[i]) then None
    else
      var e := ShortNumberEnd(s, i);
      if LiteralAt(s, SpaceRunEnd(s, e), "anos") then Some(Group(s[i..e])) else None
  }

  /** `idade\s*(?:é|:)?\s*(\d{1,2})` at `i`. */
  function AgeLabelAt(s: string, i: nat): (r: Option<Captured>)
    ensures r.Some? ==> r.value.Group? && 0 < |r.value.text| <= 2 && AllDigits(r.value.text)
  {
    if !LiteralAt(s, i, "idade") then None
    else
      var m := LabelGapEnd(s, i + 5);
      if m < |s| && IsDigit(s[m]) then Some(Group(s[m..ShortNumberEnd(s, m)])) else None
  }

  /** The name pattern at `i`: an introduction, `\s*`, then `([A-ZÀ-Ú][a-zà-ú]+)`. */
  function NameAt(s: string, i: nat): (r: Option<Captured>)
    ensures r.Some? ==> r.value.Group? && |r.value.text| >= 2
  {
    match IntroEnd(s, i)
    case None => None
    case Some(k) =>
      var m := SpaceRunEnd(s, k);
      if m + 1 < |s| && NameStartChar(s[m]) && NameRestChar(s[m + 1])
      then Some(Group(s[m..NameRunEnd(s, m + 1)]))
      else None
  }

  /** `(\d+(?:[.,]\d+)?)\s*<unit>` at `i`. */
  function UnitNumberAt(s: string, i: nat, unit: string): (r: Option<Captured>)
    requires i < |s|
    ensures r.Some? ==> r.value.Group? && |r.value.text| > 0
  {
    if !IsDigit(s[i]) then None
    else
      var e := NumberEnd(s, i);
      if LiteralAt(s, SpaceRunEnd(s, e), unit) then Some(Group(s[i..e])) else None
  }

  /** `<tag>\s*(?:é|:)?\s*(\d+(?:[.,]\d+)?)` at `i`. */
  function LabelledNumberAt(s: string, i: nat, tag: string): (r: Option<Captured>)
    ensures r.Some? ==> r.value.Group? && |r.value.text| > 0
  {
    if !LiteralAt(s, i, tag) then None
    else
      var m := LabelGapEnd(s, i + |tag|);
      if m < |s| && IsDigit(s[m]) then Some(Group(s[m..NumberEnd(s, m)])) else None
  }

  /** Pattern `p` matches somewhere in `s`. */
  predicate Matches(p: Pattern, s: string) {
    exists k | 0 <= k < |s| :: MatchAt(p, s, k).Some?
  }

  /** `k` is where `s.match(p)` finds its match: the leftmost start position. */
  predicate LeftmostAt(p: Pattern, s: string, k: nat) {
    k < |s| && MatchAt(p, s, k).Some? && forall j | 0 <= j < k :: MatchAt(p, s, j).None?
  }

  /** The leftmost start position of `p` at or after `from`. */
  function FirstMatchFrom(p: Pattern, s: string, from: nat): (r: Option<nat>)
    ensures r.Some? ==> from <= r.value < |s| && MatchAt(p, s, r.value).Some?
    ensures r.Some? ==> forall j | from <= j < r.value :: MatchAt(p, s, j).None?
    ensures r.None? ==> forall j | from <= j < |s| :: MatchAt(p, s, j).None?
    decreases |s| - from
  {
    if from >= |s| then None
    else if MatchAt(p, s, from).Some? then Some(from)
    else FirstMatchFrom(p, s, from + 1)
  }

  /** `s.match(p)`: the leftmost match's first group, or null when nothing matches. */
  function FirstMatch(p: Pattern, s: string): (r: Option<Captured>)
    ensures r.Some? <==> Matches(p, s)
    ensures r.Some? ==> CaptureShape(p, r.value)
    ensures forall k | LeftmostAt(p, s, k) :: r == MatchAt(p, s, k)
  {
    match FirstMatchFrom(p, s, 0)
    case None => None
    case Some(k) =>
      assert LeftmostAt(p, s, k);
      forall k': nat | LeftmostAt(p, s, k') ensures k' == k {
        assert !(k' < k) && !(k < k');
      }
      MatchAt(p, s, k)
  }

  /** `s.match(ps[0]) || s.match(ps[1]) || ...` from alternative `from` on:
      the first alternative that matches anywhere, with its leftmost capture. */
  function FirstOfFrom(ps: seq<Pattern>, s: string, from: nat): (r: Option<(nat, Captured)>)
    requires from <= |ps|
    ensures r.Some? ==> from <= r.value.0 < |ps| && Matches(ps[r.value.0], s)
    ensures r.Some? ==> forall j | from <= j < r.value.0 :: !Matches(ps[j], s)
    ensures r.Some? ==> CaptureShape(ps[r.value.0], r.value.1)
    ensures r.Some? ==> forall k | LeftmostAt(ps[r.value.0], s, k) :: MatchAt(ps[r.value.0], s, k) == Some(r.value.1)
    ensures r.None? <==> forall j | from <= j < |ps| :: !Matches(ps[j], s)
    decreases |ps| - from
  {
    if from == |ps| then None
    else match FirstMatch(ps[from], s)
      case Some(c) => Some((from, c))
      case None => FirstOfFrom(ps, s, from + 1)
  }

  /** The alternatives of a `||` chain of matches, tried in order. */
  function FirstOf(ps: seq<Pattern>, s: string): (r: Option<(nat, Captured)>)
    ensures r.Some? ==> r.value.0 < |ps| && Matches(ps[r.value.0], s)
    ensures r.Some? ==> forall j | 0 <= j < r.value.0 :: !Matches(ps[j], s)
    ensures r.Some? ==> CaptureShape(ps[r.value.0], r.value.1)
    ensures r.Some? ==> forall k | LeftmostAt(ps[r.value.0], s, k) :: MatchAt(ps[r.value.0], s, k) == Some(r.value.1)
    ensures r.None? <==> forall j | 0 <= j < |ps| :: !Matches(ps[j], s)
  {
    FirstOfFrom(ps, s, 0)
  }

  /** The third height alternative is dead code: wherever `(\d{3})\s*cm`
      matches, the first alternative `(\d+(?:[.,]\d+)?)\s*cm` matches too. */
  lemma ThreeDigitsCmImpliesCm(s: string, i: nat)
    requires MatchAt(HeightThreeDigitsCm, s, i).Some?
    ensures MatchAt(HeightCm, s, i).Some?
  {
    var k := SpaceRunEnd(s, i + 3);
    assert LowerChar(s[k]) == Lower(s[k..k + 2])[0] == 'c';
    // the character after the three digits is white space or the `c` of `cm`
    assert i + 3 < |s|;
    assert IsSpace(s[i + 3]) || LowerChar(s[i + 3]) == 'c';
    assert DigitRunEnd(s, i + 2) == i + 3;
    assert DigitRunEnd(s, i + 1) == i + 3;
    assert DigitRunEnd(s, i) == i + 3;
    assert NumberEnd(s, i) == i + 3;
  }

  /** Hence `match(...) || match(...) || match(/(\d{3})\s*cm/i)` never reaches its third operand. */
  lemma ThreeDigitsCmUnreachable(s: string)
    ensures Matches(HeightThreeDigitsCm, s) ==> Matches(HeightCm, s)
  {
    if Matches(HeightThreeDigitsCm, s) {
      var i :| 0 <= i < |s| && MatchAt(HeightThreeDigitsCm, s, i).Some?;
      ThreeDigitsCmImpliesCm(s, i);
    }
  }
}

