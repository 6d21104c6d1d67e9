/**
 * The catalog patcher (scripts/apply_support_boosts.js): it rewrites the
 * text of the catalog source, record by record. A Support record with an
 * `id` and a `rank` gets a generated ability and `boost` object in place of
 * an `ability: null` or a percent-free ability string, keeps an ability
 * string that holds a percent and gains a `boost` line for it, or gains the
 * generated fields after its `image` field when it has no ability; with
 * none of these fields it is left as it is. The pass stops at the first
 * record whose braces never close. The file is read and written outside
 * this model; the patcher is a method from the old text to the new.
 *
 * It keeps its own rank table (mode ignored, unknown ranks read as C), its
 * own stage index (built from every `id: "..."` in the text) and its own
 * value formula (no `+1`, no cap).
 */
module Patcher {
  import opened Optional
  import opened Text
  import opened Patterns
  import opened Stages
  import opened Rounding
  import Boosts

  // ---------------------------------------------------------------------
  // Rank table and value

  /** The patcher's `getRangeForRank`: mode is ignored and an unknown rank reads as `[1, 10]`. */
  function PatcherRange(rank: string): (r: Boosts.Range)
    ensures r.lo == 1 && r.hi in {10, 15, 20, 30, 40, 50}
    ensures ToUpper(rank) !in {"C", "B", "A", "S", "SS", "UR"} ==> r == Boosts.Range(1, 10)
  {
    var tier := ToUpper(rank);
    if tier == "C" then Boosts.Range(1, 10)
    else if tier == "B" then Boosts.Range(1, 15)
    else if tier == "A" then Boosts.Range(1, 20)
    else if tier == "S" then Boosts.Range(1, 30)
    else if tier == "SS" then Boosts.Range(1, 40)
    else if tier == "UR" then Boosts.Range(1, 50)
    else Boosts.Range(1, 10)
  }

  /** The patcher's table agrees with the "single" column of the engine's table wherever the engine has a range, and ignores case. */
  lemma PatcherRangeAgrees(rank: string)
    ensures Boosts.RangeForRank(rank, "single").Some? ==> PatcherRange(rank) == Boosts.RangeForRank(rank, "single").value
    ensures Boosts.RangeForRank(rank, "single").None? ==> PatcherRange(rank) == Boosts.Range(1, 10)
    ensures PatcherRange(ToLower(rank)) == PatcherRange(rank)
  {
    UpperIgnoresCase(rank);
  }

  /** The patcher's value: the rounded midpoint for a one-stage lineage, else the rounded interpolation. */
  function PatchValue(r: Boosts.Range, stage: nat, maxStage: int): (v: int)
    requires 1 <= r.lo <= r.hi
    ensures v >= 1
  {
    if maxStage <= 1 then RoundHalfUp(r.lo + r.hi, 2)
    else
      var num := r.lo * maxStage + (r.hi - r.lo) * stage;
      assert num >= maxStage by {
        assert (r.hi - r.lo) * stage >= 0;
        MulMonotone(maxStage, 1, r.lo);
      }
      RoundMonotone(maxStage, num, maxStage);
      RoundExact(1, maxStage);
      RoundHalfUp(num, maxStage)
  }

  /** For a stage within its lineage the patcher's value stays inside the range. */
  lemma PatchValueInRange(r: Boosts.Range, stage: nat, maxStage: int)
    requires 1 <= r.lo <= r.hi && stage <= maxStage
    ensures r.lo <= PatchValue(r, stage, maxStage) <= r.hi
  {
    if maxStage > 1 {
      var d := r.hi - r.lo;
      var num := r.lo * maxStage + d * stage;
      StepBounds(d, stage, maxStage);
      assert r.lo * maxStage + d * maxStage == r.hi * maxStage;
      RoundMonotone(r.lo * maxStage, num, maxStage);
      RoundMonotone(num, r.hi * maxStage, maxStage);
      RoundExact(r.lo, maxStage);
      RoundExact(r.hi, maxStage);
    }
  }

  /** The last stage of a multi-stage lineage gets exactly the top of the range. */
  lemma PatchValueAtTop(r: Boosts.Range, maxStage: int)
    requires 1 <= r.lo <= r.hi && maxStage > 1
    ensures PatchValue(r, maxStage, maxStage) == r.hi
  {
    assert r.lo * maxStage + (r.hi - r.lo) * maxStage == r.hi * maxStage;
    RoundExact(r.hi, maxStage);
  }

  lemma StepBounds(d: int, stage: nat, maxStage: int)
    requires d >= 0 && stage <= maxStage
    ensures 0 <= d * stage <= d * maxStage
  {
    if d > 0 {
      MulMonotone(d, stage, maxStage);
    }
  }

  /** The engine's value for a multi-stage lineage is the patcher's plus one, capped at the top of the range. */
  lemma EngineAddsOne(r: Boosts.Range, stage: nat, maxStage: int)
    requires 1 <= r.lo <= r.hi && maxStage > 1
    ensures Boosts.StageValue(r, stage, maxStage) == Boosts.Min(r.hi, PatchValue(r, stage, maxStage) + 1)
  {
  }

  // ---------------------------------------------------------------------
  // Mode and generated text

  /** The modes the patcher writes. */
  datatype PatchMode = PAttack | PSpecial | PBoth | PHp

  /**
   * The patcher's mode for an ability text: HP unless the lower-cased text
   * names attack, special or both, checked in that order; "atk" is not
   * recognised.
   */
  function ChooseMode(abilityRaw: string): (m: PatchMode)
    ensures abilityRaw == [] ==> m == PHp
    ensures m == PAttack <==> Contains(ToLower(abilityRaw), "attack")
    ensures m == PSpecial <==> !Contains(ToLower(abilityRaw), "attack") && Contains(ToLower(abilityRaw), "special")
    ensures m == PBoth <==>
      !Contains(ToLower(abilityRaw), "attack") && !Contains(ToLower(abilityRaw), "special") &&
      Contains(ToLower(abilityRaw), "both")
  {
    if abilityRaw == [] then PHp
    else
      var a := ToLower(abilityRaw);
      if Contains(a, "attack") then PAttack
      else if Contains(a, "special") then PSpecial
      else if Contains(a, "both") then PBoth
      else PHp
  }

  /** The stat label of the generated ability text. */
  function Label(m: PatchMode): string {
    match m
    case PBoth => "ATK and HP"
    case PAttack => "ATK"
    case PSpecial => "SPECIAL"
    case PHp => "HP"
  }

  /** The `boost` object literal for a mode and a value. */
  function BoostLiteral(m: PatchMode, v: string): string {
    match m
    case PBoth => "boost: { atk: " + v + ", hp: " + v + " },"
    case PAttack => "boost: { atk: " + v + " },"
    case PSpecial => "boost: { special: " + v + " },"
    case PHp => "boost: { hp: " + v + " },"
  }

  /** The generated ability text: `Boosts team <label> by N%`. */
  function GeneratedAbility(m: PatchMode, v: nat): string {
    "Boosts team " + Label(m) + " by " + NatToString(v) + "%"
  }

  /** The `replacementFields` text: the generated ability field, a line break and the `boost` field. */
  function ReplacementFields(m: PatchMode, v: nat): string {
    "ability: \"" + GeneratedAbility(m, v) + "\",\n    " + BoostLiteral(m, NatToString(v))
  }

  /** The `boost` line the patcher adds after an ability text that already holds a percent: attack, then both, then special, else HP. */
  function PercentBoostLine(aText: string, num: nat): string {
    var a := ToLower(aText);
    if Contains(a, "attack") then BoostLiteral(PAttack, NatToString(num))
    else if Contains(a, "both") then BoostLiteral(PBoth, NatToString(num))
    else if Contains(a, "special") then BoostLiteral(PSpecial, NatToString(num))
    else BoostLiteral(PHp, NatToString(num))
  }

  /** Every character of `t` is outside `\d`. */
  predicate NoDigits(t: string) { forall k :: 0 <= k < |t| ==> !IsDigit(t[k]) }

  /** Decimal digits hold no `$`. */
  lemma DigitsNoDollar(v: nat)
    ensures '$' !in NatToString(v)
  {
    var d := NatToString(v);
    forall k | 0 <= k < |d| ensures d[k] != '$' {
      assert IsDigit(d[k]);
    }
  }

  lemma BoostLiteralNoDollar(m: PatchMode, d: string)
    requires '$' !in d
    ensures '$' !in BoostLiteral(m, d)
  {
    assert '$' !in "boost: { atk: " && '$' !in ", hp: " && '$' !in " },";
    assert '$' !in "boost: { special: " && '$' !in "boost: { hp: ";
  }

  /** No `$` in the generated fields, so `replace` inserts them as they are. */
  lemma NoDollarInFields(m: PatchMode, v: nat)
    ensures '$' !in ReplacementFields(m, v)
  {
    DigitsNoDollar(v);
    BoostLiteralNoDollar(m, NatToString(v));
    assert '$' !in Label(m);
    assert '$' !in "ability: \"" && '$' !in "Boosts team " && '$' !in " by " && '$' !in "%" && '$' !in "\",\n    ";
  }

  /** A number of at most 999 is written with at most three digits. */
  lemma ShortNumber(n: nat)
    requires n <= 999
    ensures |NatToString(n)| <= 3
  {
    if n >= 10 {
      assert |NatToString(n)| == |NatToString(n / 10)| + 1;
      if n / 10 >= 10 {
        assert |NatToString(n / 10)| == |NatToString(n / 10 / 10)| + 1;
      }
    }
  }

  /** The label and the words around it hold no digit. */
  lemma GeneratedPrefixNoDigits(m: PatchMode)
    ensures NoDigits("Boosts team " + Label(m) + " by ")
  {
    var p := "Boosts team " + Label(m) + " by ";
    forall k | 0 <= k < |p| ensures !IsDigit(p[k]) {
      if k < 12 {
        assert p[k] == "Boosts team "[k];
      } else if k < 12 + |Label(m)| {
        assert p[k] == Label(m)[k - 12];
      } else {
        assert p[k] == " by "[k - 12 - |Label(m)|];
      }
    }
  }

  /** One to three digits followed by `%` at the end of a text form the percent token that starts there. */
  lemma PercentTokenAtEnd(p: string, d: string)
    requires 1 <= |d| <= 3 && AllDigits(d)
    ensures MatchAt(PercentToken, p + d + "%", |p|) == Some(Found(|p|, |p| + |d| + 1, [d]))
  {
    var s := p + d + "%";
    var n := |p|;
    assert s[n + |d|] == '%' && s[n..n + |d|] == d;
    forall k | n <= k < n + |d| ensures IsDigit(s[k]) {
      assert s[k] == d[k - n];
    }
    PercentTokenAt(s, n, n + |d|);
  }

  /** Reading the percent back from a generated ability text gives the value that was written. */
  lemma GeneratedPercentRoundTrip(m: PatchMode, v: nat)
    requires v <= 999
    ensures PercentOf(GeneratedAbility(m, v)) == Some(v)
  {
    var p := "Boosts team " + Label(m) + " by ";
    var s := GeneratedAbility(m, v);
    assert s == p + NatToString(v) + "%";
    GeneratedPrefixNoDigits(m);
    assert forall k :: 0 <= k < |p| ==> s[k] == p[k];
    ShortNumber(v);
    PercentTokenAtEnd(p, NatToString(v));
    PercentNeedsDigit(s, 0, |p|);
  }

  // ---------------------------------------------------------------------
  // One record

  /** The ability text the mode is read from: the quoted contents of the first ability field; empty for `null` or no field. */
  function AbilityRawOf(obj: string): string {
    match Search(AbilityField, obj, 0)
    case None => ""
    case Some(f) => f.groups[1]
  }

  /**
   * The ability text is the quoted contents of the first `ability:` field:
   * it holds no quote, it is empty when no such field is found, and when it
   * is not empty it sits between quotes after the first `ability:` of the
   * record and the whitespace that follows it.
   */
  lemma AbilityRawOfSpec(obj: string) returns (i: nat, q: nat)
    ensures '"' !in AbilityRawOf(obj)
    ensures (forall k :: MatchAt(AbilityField, obj, k).None?) ==> AbilityRawOf(obj) == []
    ensures var r := AbilityRawOf(obj);
      r != [] ==>
        i + 8 <= q && q + |r| + 2 <= |obj| && HasAt(obj, i, "ability:") &&
        (forall k :: 0 <= k < i ==> MatchAt(AbilityField, obj, k).None?) &&
        (forall k :: i + 8 <= k < q ==> IsSpace(obj[k])) &&
        obj[q..q + |r| + 2] == "\"" + r + "\""
  {
    match Search(AbilityField, obj, 0)
    case None =>
      i, q := 0, 0;
    case Some(f) =>
      i := f.start;
      q := AbilityFieldShape(obj, i);
  }

  /** The fields generated for a Support record with this id, rank and ability text. */
  function FieldsFor(id: string, rank: string, abilityRaw: string, stages: map<string, nat>): string {
    var stage := StageOf(id);
    var maxStage := Boosts.LiveMaxStage(stages, BaseOf(id));
    ReplacementFields(ChooseMode(abilityRaw), PatchValue(PatcherRange(rank), stage, maxStage))
  }

  /**
   * The new text of a Support record (scripts/apply_support_boosts.js:119-142):
   * `ability: null` becomes the generated fields; an ability string holding
   * a percent is kept and followed by a `boost` line for that percent; any
   * other ability string becomes the generated fields; with no ability
   * field the generated fields go after the `image` field.
   */
  function Rewrite(obj: string, fields: string): string {
    if Test(AbilityNullPattern, obj) then Replace(AbilityNullPattern, obj, fields)
    else if Test(AbilityStringPattern, obj) then
      var aText := Search(AbilityStringPattern, obj, 0).value.groups[0];
      match PercentOf(aText)
      case Some(num) => Replace(AbilityStringPattern, obj, KeptAbility(aText, num))
      case None => Replace(AbilityStringPattern, obj, fields)
    else Replace(ImageField, obj, "$1\n    " + fields)
  }

  /**
   * One record's patch: none unless the record text holds `type: "Support"`
   * (exactly so cased), an `id` field and a `rank` field.
   */
  function PatchRecord(obj: string, stages: map<string, nat>): (r: Option<string>)
    ensures r.None? <==>
      !Test(SupportTypePattern, obj) || !Test(IdPattern, obj) || !Test(RankPattern, obj)
  {
    if !Test(SupportTypePattern, obj) then None
    else
      match Search(IdPattern, obj, 0)
      case None => None
      case Some(idMatch) =>
        match Search(RankPattern, obj, 0)
        case None => None
        case Some(rankMatch) =>
          var fields := FieldsFor(idMatch.groups[0], rankMatch.groups[0], AbilityRawOf(obj), stages);
          Some(Rewrite(obj, fields))
  }

  /** With `ability: null` present, its first occurrence is replaced by the fields and nothing else changes. */
  lemma NullAbilityReplaced(obj: string, fields: string)
    requires Test(AbilityNullPattern, obj) && '$' !in fields
    ensures var f := Search(AbilityNullPattern, obj, 0).value;
      Rewrite(obj, fields) == obj[..f.start] + fields + obj[f.stop..]
  {
    ReplaceLiteral(AbilityNullPattern, obj, fields);
  }

  /** The generated fields end with the comma after the `boost` object. */
  lemma FieldsEndInComma(m: PatchMode, v: nat)
    ensures var t := ReplacementFields(m, v); t != [] && t[|t| - 1] == ','
  {
    var d := NatToString(v);
    var b := BoostLiteral(m, d);
    assert b[|b| - 1] == ',';
    assert ReplacementFields(m, v) == "ability: \"" + GeneratedAbility(m, v) + "\",\n    " + b;
  }

  /**
   * `ability:\s*null` does not take the field's own comma, so a record
   * holding `ability: null,` comes out with two commas in a row when the
   * inserted fields end with a comma, as the generated ones do
   * (`FieldsEndInComma`); a JavaScript object literal does not allow that.
   */
  lemma NullThenCommaDoubles(obj: string, fields: string) returns (k: nat)
    requires Test(AbilityNullPattern, obj)
    requires var f := Search(AbilityNullPattern, obj, 0).value; f.stop < |obj| && obj[f.stop] == ','
    requires '$' !in fields && fields != [] && fields[|fields| - 1] == ','
    ensures var r := Rewrite(obj, fields); k + 2 <= |r| && r[k..k + 2] == ",,"
  {
    var f := Search(AbilityNullPattern, obj, 0).value;
    NullAbilityReplaced(obj, fields);
    CommaMeetsComma(obj[..f.start], fields, obj[f.stop..]);
    k := f.start + |fields| - 1;
  }

  /** A text ending in a comma, followed by one starting with a comma, holds `,,` where they meet. */
  lemma CommaMeetsComma(a: string, b: string, c: string)
    requires b != [] && b[|b| - 1] == ',' && c != [] && c[0] == ','
    ensures (a + b + c)[|a| + |b| - 1..|a| + |b| + 1] == ",,"
  {
    var r := a + b + c;
    assert r[|a| + |b| - 1] == b[|b| - 1];
    assert r[|a| + |b|] == c[0];
  }

  /** A percent-free ability string is replaced by the fields and nothing else changes. */
  lemma PlainAbilityReplaced(obj: string, fields: string)
    requires !Test(AbilityNullPattern, obj) && Test(AbilityStringPattern, obj)
    requires PercentOf(Search(AbilityStringPattern, obj, 0).value.groups[0]).None?
    requires '$' !in fields
    ensures var f := Search(AbilityStringPattern, obj, 0).value;
      Rewrite(obj, fields) == obj[..f.start] + fields + obj[f.stop..]
  {
    ReplaceLiteral(AbilityStringPattern, obj, fields);
  }

  /**
   * An ability string that already holds a percent (and no `$`) is kept
   * word for word and followed by a `boost` line for that percent; the
   * record is otherwise unchanged. No check is made for an existing `boost`.
   */
  lemma PercentAbilityKept(obj: string, fields: string)
    requires !Test(AbilityNullPattern, obj) && Test(AbilityStringPattern, obj)
    requires var aText := Search(AbilityStringPattern, obj, 0).value.groups[0];
      PercentOf(aText).Some? && '$' !in aText
    ensures var f := Search(AbilityStringPattern, obj, 0).value;
      var aText := f.groups[0];
      Rewrite(obj, fields) == obj[..f.start] + KeptAbility(aText, PercentOf(aText).value) + obj[f.stop..]
  {
    var f := Search(AbilityStringPattern, obj, 0).value;
    var aText := f.groups[0];
    var num := PercentOf(aText).value;
    PercentLineNoDollar(aText, num);
    assert '$' !in "ability: \"" && '$' !in "\",\n    ";
    assert '$' !in KeptAbility(aText, num);
    ReplaceLiteral(AbilityStringPattern, obj, KeptAbility(aText, num));
  }

  lemma PercentLineNoDollar(aText: string, num: nat)
    ensures '$' !in PercentBoostLine(aText, num)
  {
    DigitsNoDollar(num);
    var m := if Contains(ToLower(aText), "attack") then PAttack
      else if Contains(ToLower(aText), "both") then PBoth
      else if Contains(ToLower(aText), "special") then PSpecial
      else PHp;
    assert PercentBoostLine(aText, num) == BoostLiteral(m, NatToString(num));
    BoostLiteralNoDollar(m, NatToString(num));
  }

  /** The ability field written back unchanged, followed by the `boost` line for its percent. */
  function KeptAbility(aText: string, num: nat): string {
    "ability: \"" + aText + "\",\n    " + PercentBoostLine(aText, num)
  }

  /** With no ability field, the fields are inserted on a new line right after the `image` field. */
  lemma FieldsAfterImage(obj: string, fields: string)
    requires !Test(AbilityNullPattern, obj) && !Test(AbilityStringPattern, obj) && Test(ImageField, obj)
    requires '$' !in fields
    ensures var f := Search(ImageField, obj, 0).value;
      Rewrite(obj, fields) == obj[..f.stop] + "\n    " + fields + obj[f.stop..]
  {
    var f := Search(ImageField, obj, 0).value;
    var t := "\n    " + fields;
    assert '$' !in t;
    assert "$1\n    " + fields == "$1" + t;
    assert Rewrite(obj, fields) == Replace(ImageField, obj, "$1" + t);
    InsertAfterImage(obj, t);
  }

  // ---------------------------------------------------------------------
  // Finding the end of a record

  /** How a character moves the brace depth. */
  function Delta(c: char): int {
    if c == '{' then 1 else if c == '}' then -1 else 0
  }

  /** The brace depth after scanning `s[start..j]`. */
  function Depth(s: string, start: nat, j: nat): int
    requires start <= j <= |s|
    decreases j - start
  {
    if j == start then 0 else Depth(s, start, j - 1) + Delta(s[j - 1])
  }

  /** `s[k]` is a `}` that brings the depth counted from `start` back to zero. */
  predicate ClosesAt(s: string, start: nat, k: int) {
    start <= k < |s| && s[k] == '}' && Depth(s, start, k + 1) == 0
  }

  /** The scan from `pos` with the current depth: the index of the first closing `}` that reaches depth zero, or -1. */
  function ScanEnd(s: string, pos: nat, depth: int): (r: int)
    decreases |s| - pos
    ensures r == -1 || pos <= r < |s|
  {
    if pos >= |s| then -1
    else
      var d := depth + Delta(s[pos]);
      if s[pos] == '}' && d == 0 then pos else ScanEnd(s, pos + 1, d)
  }

  lemma {:induction false} ScanEndSpec(s: string, start: nat, pos: nat, depth: int)
    requires start <= pos <= |s| && depth == Depth(s, start, pos)
    ensures var r := ScanEnd(s, pos, depth);
      (r == -1 <==> forall k :: pos <= k < |s| ==> !ClosesAt(s, start, k)) &&
      (r >= 0 ==> ClosesAt(s, start, r) && forall k :: pos <= k < r ==> !ClosesAt(s, start, k))
    decreases |s| - pos
  {
    if pos < |s| {
      var d := depth + Delta(s[pos]);
      assert d == Depth(s, start, pos + 1);
      if s[pos] == '}' && d == 0 {
        assert ClosesAt(s, start, pos);
      } else {
        assert !ClosesAt(s, start, pos);
        ScanEndSpec(s, start, pos + 1, d);
        assert ScanEnd(s, pos, depth) == ScanEnd(s, pos + 1, d);
      }
    }
  }

  /**
   * The end of the record whose `{` stands at `start` (lines 46-57): the
   * first `}` at which the brace depth counted from `start` returns to zero,
   * or -1 when the text ends first.
   */
  function RecordEnd(s: string, start: nat): (r: int)
    ensures r == -1 || start <= r < |s|
  {
    ScanEnd(s, start, 0)
  }

  /** The end found is the first `}` that closes the record; -1 means no `}` does. */
  lemma RecordEndSpec(s: string, start: nat)
    requires start <= |s|
    ensures var r := RecordEnd(s, start);
      (r == -1 <==> forall k :: start <= k < |s| ==> !ClosesAt(s, start, k)) &&
      (r >= 0 ==> ClosesAt(s, start, r) && forall k :: start <= k < r ==> !ClosesAt(s, start, k))
  {
    ScanEndSpec(s, start, start, 0);
  }

  /**
   * A record opened by `{` at `start` and closed at `end` is balanced: the
   * depth is positive everywhere inside it and back to zero after `end`.
   */
  lemma {:induction false} InsideRecord(s: string, start: nat, end: nat, j: nat)
    requires start < |s| && s[start] == '{'
    requires ClosesAt(s, start, end) && forall k :: start <= k < end ==> !ClosesAt(s, start, k)
    requires start < j <= end
    ensures Depth(s, start, j) > 0
    decreases j
  {
    if j > start + 1 {
      InsideRecord(s, start, end, j - 1);
      assert !ClosesAt(s, start, j - 1);
    }
  }

  /** The brace-matching loop of the patcher. */
  method FindRecordEnd(s: string, start: nat) returns (end: int)
    ensures end == RecordEnd(s, start)
  {
    var pos := start;
    var depth := 0;
    end := -1;
    while pos < |s|
      invariant pos >= start
      invariant ScanEnd(s, pos, depth) == ScanEnd(s, start, 0)
      invariant end == -1
      decreases |s| - pos
    {
      var ch := s[pos];
      if ch == '{' {
        depth := depth + 1;
      } else if ch == '}' {
        depth := depth - 1;
        if depth == 0 {
          end := pos;
          break;
        }
      }
      pos := pos + 1;
    }
  }

  // ---------------------------------------------------------------------
  // The stage index the patcher builds (lines 8-25)

  /** The ids `idRegex.exec` yields, in order, scanning from `from` with the `g` flag. */
  function IdMatches(src: string, from: nat): (ids: seq<string>)
    decreases |src| - from
    ensures forall k :: 0 <= k < |ids| ==> ids[k] != []
  {
    match Search(IdPattern, src, from)
    case None => []
    case Some(f) => [f.groups[0]] + IdMatches(src, f.stop)
  }

  /** One `exec` call: the next id is taken and the scan resumes after its match. */
  lemma IdMatchesStep(src: string, from: nat, seen: seq<string>)
    requires Search(IdPattern, src, from).Some?
    ensures var f := Search(IdPattern, src, from).value;
      from < f.stop <= |src| &&
      seen + IdMatches(src, from) == (seen + [f.groups[0]]) + IdMatches(src, f.stop)
  {
  }

  /**
   * Ids grouped by `key`, each group listing `val` of its ids in the order
   * they occur (the `groups` map with `key` the lineage and `val` the stage).
   */
  function GroupBy(key: string -> string, val: string -> nat, ids: seq<string>): (g: map<string, seq<nat>>)
    ensures forall b :: b in g ==> |g[b]| > 0
  {
    if ids == [] then map[]
    else
      var g := GroupBy(key, val, ids[..|ids| - 1]);
      var id := ids[|ids| - 1];
      g[key(id) := (if key(id) in g then g[key(id)] else []) + [val(id)]]
  }

  /** Every id's value is listed under its key. */
  lemma {:induction false} GroupByListed(key: string -> string, val: string -> nat, ids: seq<string>)
    ensures var g := GroupBy(key, val, ids);
      forall i :: 0 <= i < |ids| ==> key(ids[i]) in g && val(ids[i]) in g[key(ids[i])]
  {
    if ids != [] {
      var n := |ids| - 1;
      GroupByListed(key, val, ids[..n]);
      var front := GroupBy(key, val, ids[..n]);
      var g := GroupBy(key, val, ids);
      forall i | 0 <= i < n
        ensures key(ids[i]) in g && val(ids[i]) in g[key(ids[i])]
      {
        assert ids[..n][i] == ids[i];
        var b := key(ids[i]);
        assert val(ids[i]) in front[b];
        assert b == key(ids[n]) ==> g[b] == front[b] + [val(ids[n])];
      }
    }
  }

  /** Some id has key `b` and value `v`. */
  predicate Witnessed(key: string -> string, val: string -> nat, ids: seq<string>, b: string, v: nat) {
    exists i :: 0 <= i < |ids| && key(ids[i]) == b && val(ids[i]) == v
  }

  /** Every listed value is the value of an id with that key. */
  lemma {:induction false} GroupByAttained(key: string -> string, val: string -> nat, ids: seq<string>)
    ensures forall b, j :: b in GroupBy(key, val, ids) && 0 <= j < |GroupBy(key, val, ids)[b]| ==>
      Witnessed(key, val, ids, b, GroupBy(key, val, ids)[b][j])
  {
    if ids != [] {
      var n := |ids| - 1;
      GroupByAttained(key, val, ids[..n]);
      var front := GroupBy(key, val, ids[..n]);
      var g := GroupBy(key, val, ids);
      var k := key(ids[n]);
      assert g == front[k := (if k in front then front[k] else []) + [val(ids[n])]];
      forall b, j | b in g && 0 <= j < |g[b]|
        ensures Witnessed(key, val, ids, b, g[b][j])
      {
        if b == k && j == |g[b]| - 1 {
          assert key(ids[n]) == b && val(ids[n]) == g[b][j];
        } else {
          assert b in front && j < |front[b]| && g[b][j] == front[b][j];
          assert Witnessed(key, val, ids[..n], b, front[b][j]);
          var i :| 0 <= i < n && key(ids[..n][i]) == b && val(ids[..n][i]) == front[b][j];
          assert key(ids[i]) == b && val(ids[i]) == g[b][j];
        }
      }
    }
  }

  /** The `groups` map after the scan: each lineage's stages, in the order its ids occur. */
  function StageGroups(ids: seq<string>): (g: map<string, seq<nat>>)
    ensures forall b :: b in g ==> |g[b]| > 0
  {
    GroupBy(BaseOf, StageOf, ids)
  }

  /** One step of the scan appends the id's stage to its lineage's list. */
  lemma StageGroupsStep(ids: seq<string>, id: string)
    ensures var g := StageGroups(ids);
      StageGroups(ids + [id]) == g[BaseOf(id) := (if BaseOf(id) in g then g[BaseOf(id)] else []) + [StageOf(id)]]
  {
    assert (ids + [id])[..|ids|] == ids;
  }

  /** `Math.max(...xs)` of a non-empty list. */
  function SeqMax(xs: seq<nat>): (r: nat)
    requires |xs| > 0
    ensures forall k :: 0 <= k < |xs| ==> xs[k] <= r
    ensures r in xs
  {
    if |xs| == 1 then xs[0]
    else
      var front := SeqMax(xs[..|xs| - 1]);
      assert forall k :: 0 <= k < |xs| - 1 ==> xs[..|xs| - 1][k] == xs[k];
      if front >= xs[|xs| - 1] then front else xs[|xs| - 1]
  }

  /**
   * The patcher's `maxStageMap`: for every lineage among the ids in the
   * file, the largest stage of its ids. A lineage whose ids all end in `_0`
   * gets 0, which `|| 1` later reads as 1.
   */
  function PatcherStageIndex(src: string): (m: map<string, nat>)
    ensures var ids := IdMatches(src, 0);
      forall i :: 0 <= i < |ids| ==> BaseOf(ids[i]) in m && StageOf(ids[i]) <= m[BaseOf(ids[i])]
    ensures var ids := IdMatches(src, 0);
      forall b :: b in m ==> exists i :: 0 <= i < |ids| && BaseOf(ids[i]) == b && StageOf(ids[i]) == m[b]
  {
    var g := StageGroups(IdMatches(src, 0));
    var m := map b | b in g :: SeqMax(g[b]);
    GroupByListed(BaseOf, StageOf, IdMatches(src, 0));
    GroupByAttained(BaseOf, StageOf, IdMatches(src, 0));
    forall b | b in m
      ensures exists i :: 0 <= i < |IdMatches(src, 0)| && BaseOf(IdMatches(src, 0)[i]) == b && StageOf(IdMatches(src, 0)[i]) == m[b]
    {
      var j :| 0 <= j < |g[b]| && g[b][j] == m[b];
    }
    m
  }

  /** The first loop: `idRegex.exec` until it fails, each id's stage appended to its lineage's list. */
  method CollectStageGroups(src: string) returns (groups: map<string, seq<nat>>)
    ensures groups == StageGroups(IdMatches(src, 0))
  {
    groups := map[];
    var lastIndex: nat := 0;
    ghost var seen: seq<string> := [];
    while true
      invariant lastIndex <= |src|
      invariant seen + IdMatches(src, lastIndex) == IdMatches(src, 0)
      invariant groups == StageGroups(seen)
      decreases |src| - lastIndex
    {
      var found := Search(IdPattern, src, lastIndex);
      if found.None? {
        break;
      }
      var id := found.value.groups[0];
      var stage := StageOf(id);
      var base := BaseOf(id);
      var arr := if base in groups then groups[base] else [];
      groups := groups[base := arr + [stage]];
      StageGroupsStep(seen, id);
      IdMatchesStep(src, lastIndex, seen);
      seen := seen + [id];
      lastIndex := found.value.stop;
    }
    assert IdMatches(src, lastIndex) == [];
    assert seen + [] == seen;
  }

  /** The second loop: each lineage's largest stage. */
  method MaxPerLineage(groups: map<string, seq<nat>>) returns (m: map<string, nat>)
    requires forall b :: b in groups ==> |groups[b]| > 0
    ensures m == map b | b in groups :: SeqMax(groups[b])
  {
    m := map[];
    var pending := groups.Keys;
    while pending != {}
      invariant pending <= groups.Keys
      invariant m == map b | b in groups.Keys - pending :: SeqMax(groups[b])
      decreases |pending|
    {
      var b :| b in pending;
      m := m[b := SeqMax(groups[b])];
      pending := pending - {b};
    }
    assert groups.Keys - pending == groups.Keys;
  }

  /** `maxStageMap` as the patcher builds it. */
  method BuildPatcherStageMap(src: string) returns (m: map<string, nat>)
    ensures m == PatcherStageIndex(src)
  {
    var groups := CollectStageGroups(src);
    m := MaxPerLineage(groups);
  }

  // ---------------------------------------------------------------------
  // The whole file (lines 40-147)

  /** What opens a record in the catalog file: a new line, two spaces, `{ id:`. */
  const Marker := "\n  { id:"

  /** The `{` searched for after a record marker is the marker's own. */
  lemma MarkerBrace(src: string, idx: nat)
    requires IndexOf(src, Marker, idx) != -1
    ensures var found := IndexOf(src, Marker, idx);
      IndexOf(src, "{", found) == found + 3
  {
    var found := IndexOf(src, Marker, idx);
    IndexOfSpec(src, Marker, idx);
    var w := src[found..found + |Marker|];
    assert w == Marker;
    assert src[found + 3] == w[3] == '{';
    assert OccursAt(src, "{", found + 3) by {
      assert src[found + 3..found + 4] == "{";
    }
    forall k | found <= k < found + 3 ensures !OccursAt(src, "{", k) {
      assert src[k] == w[k - found] != '{';
      assert src[k..k + 1][0] == src[k];
    }
    IndexOfSpec(src, "{", found);
  }

  /** The per-record patch as a value, so that the file-level loop can be stated once for it. */
  function RecordPatcher(stages: map<string, nat>): string -> Option<string> {
    obj => PatchRecord(obj, stages)
  }

  /** Where the next record from `idx` starts and ends: its marker's `{` and the `}` that closes it; none when there is no further marker or the record is never closed. */
  function NextRecord(src: string, idx: nat): (r: Option<(nat, nat)>)
    ensures r.Some? ==> idx <= r.value.0 <= r.value.1 < |src|
  {
    var found := IndexOf(src, Marker, idx);
    if found == -1 then None
    else
      MarkerBrace(src, idx);
      var start := IndexOf(src, "{", found);
      var end := RecordEnd(src, start);
      if end == -1 then None else Some((start, end))
  }

  /**
   * One pass of the loop body: the text and the index the next pass starts
   * from, or none when the loop stops. A record without a patch is skipped;
   * a patched record is spliced in and the search resumes after it. Either
   * way the text before `idx` stays as it was and less text remains ahead.
   */
  function PatchStep(src: string, idx: nat, patch: string -> Option<string>): (r: Option<(string, nat)>)
    requires idx <= |src|
    ensures r.Some? ==> r.value.1 <= |r.value.0| && |r.value.0| - r.value.1 < |src| - idx
    ensures r.Some? ==> idx <= r.value.1 && r.value.0[..idx] == src[..idx]
  {
    match NextRecord(src, idx)
    case None => None
    case Some((start, end)) =>
      match patch(src[start..end + 1])
      case None => Some((src, end + 1))
      case Some(n) =>
        var next := src[..start] + n + src[end + 1..];
        assert next[..idx] == src[..idx];
        Some((next, start + |n|))
  }

  /**
   * One pass changes the text only inside the record it found, and resumes
   * right after that record as it now reads: an unpatched record is left
   * byte for byte, a patched one is replaced by its new text alone.
   */
  lemma SpliceOnlyRecord(src: string, idx: nat, patch: string -> Option<string>)
    requires idx <= |src| && NextRecord(src, idx).Some?
    ensures var (start, end) := NextRecord(src, idx).value;
      match patch(src[start..end + 1])
      case None => PatchStep(src, idx, patch) == Some((src, end + 1))
      case Some(n) =>
        var (next, j) := PatchStep(src, idx, patch).value;
        && j == start + |n| && |next| == |src| - (end + 1 - start) + |n|
        && next[..start] == src[..start] && next[start..j] == n && next[j..] == src[end + 1..]
  {
    var (start, end) := NextRecord(src, idx).value;
    match patch(src[start..end + 1]) {
      case None =>
      case Some(n) =>
        var next := src[..start] + n + src[end + 1..];
        assert next[start..start + |n|] == n;
        assert next[start + |n|..] == src[end + 1..];
    }
  }

  /** The patch loop from index `idx` on, for a per-record `patch`. */
  function PatchFrom(src: string, idx: nat, patch: string -> Option<string>): string
    requires idx <= |src|
    decreases |src| - idx
  {
    match PatchStep(src, idx, patch)
    case None => src
    case Some((next, j)) => PatchFrom(next, j, patch)
  }

  lemma PrefixOfPrefix(a: string, b: string, i: nat, j: nat)
    requires i <= j <= |a| && j <= |b| && a[..j] == b[..j]
    ensures a[..i] == b[..i]
  {
    assert a[..i] == a[..j][..i];
    assert b[..i] == b[..j][..i];
  }

  /** The loop never touches the text before the index it starts from. */
  lemma {:induction false} PatchKeepsPrefix(src: string, idx: nat, patch: string -> Option<string>)
    requires idx <= |src|
    ensures |PatchFrom(src, idx, patch)| >= idx && PatchFrom(src, idx, patch)[..idx] == src[..idx]
    decreases |src| - idx
  {
    match PatchStep(src, idx, patch) {
      case None =>
      case Some((next, j)) =>
        PatchKeepsPrefix(next, j, patch);
        PrefixOfPrefix(PatchFrom(next, j, patch), next, idx, j);
    }
  }

  /** A record patch that only ever changes records containing `lit` leaves a file without `lit` as it was. */
  lemma {:induction false} NothingToPatch(src: string, idx: nat, patch: string -> Option<string>, lit: string)
    requires idx <= |src| && !Contains(src, lit)
    requires forall obj :: patch(obj).Some? ==> Contains(obj, lit)
    ensures PatchFrom(src, idx, patch) == src
    decreases |src| - idx
  {
    match NextRecord(src, idx) {
      case None =>
      case Some((start, end)) =>
        if patch(src[start..end + 1]).Some? {
          ContainsSlice(src, start, end + 1, lit);
        } else {
          NothingToPatch(src, end + 1, patch, lit);
        }
    }
  }

  /** Only a record that contains `"Support"` is patched. */
  lemma PatchNeedsSupport(stages: map<string, nat>)
    ensures forall obj :: RecordPatcher(stages)(obj).Some? ==> Contains(obj, "\"Support\"")
  {
    forall obj | RecordPatcher(stages)(obj).Some? ensures Contains(obj, "\"Support\"") {
      LiteralFieldContains("type:", "\"Support\"", obj);
    }
  }

  /** A catalog without `"Support"` anywhere is left exactly as it was. */
  lemma NoSupportUnchanged(src: string, stages: map<string, nat>)
    requires !Contains(src, "\"Support\"")
    ensures PatchFrom(src, 0, RecordPatcher(stages)) == src
  {
    PatchNeedsSupport(stages);
    NothingToPatch(src, 0, RecordPatcher(stages), "\"Support\"");
  }

  /** The loop of lines 40-147, for the per-record `patch` the script applies. */
  method PatchAll(src0: string, patch: string -> Option<string>) returns (src: string)
    ensures src == PatchFrom(src0, 0, patch)
  {
    src := src0;
    var idx: nat := 0;
    while true
      invariant idx <= |src|
      invariant PatchFrom(src, idx, patch) == PatchFrom(src0, 0, patch)
      decreases |src| - idx
    {
      var found := IndexOf(src, Marker, idx);
      if found == -1 {
        break;
      }
      MarkerBrace(src, idx);
      var start := IndexOf(src, "{", found);
      var end := FindRecordEnd(src, start);
      if end == -1 {
        break;
      }
      assert NextRecord(src, idx) == Some((start, end));
      var objText := src[start..end + 1];
      var patched := patch(objText);
      if patched.None? {
        idx := end + 1;
        continue;
      }
      var newObjText := patched.value;
      src := src[..start] + newObjText + src[end + 1..];
      idx := start + |newObjText|;
    }
  }

  /** The script: build the stage index from the file as it is, then rewrite the records in one pass. */
  method ApplySupportBoosts(src0: string) returns (src: string)
    ensures src == PatchFrom(src0, 0, RecordPatcher(PatcherStageIndex(src0)))
  {
    var stages := BuildPatcherStageMap(src0);
    src := PatchAll(src0, RecordPatcher(stages));
  }
}
