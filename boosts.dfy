/**
 * The live boost engine (lib/boosts.js): the rank/mode range table, the
 * stage-aware magnitude, the lineage index built from the catalog, the
 * per-card classification and the two roster aggregators.
 *
 * The two aggregators are kept apart on purpose: `computeTeamBoosts`
 * sends single-mode Support boosts to HP and gives Support cards an HP
 * default even when their ability text names no stat, and
 * `computeTeamBoostsDetailed` does neither.
 */
module Boosts {
  import opened Optional
  import opened Text
  import opened Patterns
  import opened Stages
  import opened Catalog
  import opened Rounding

  // ---------------------------------------------------------------------
  // Rank/mode range table

  /** An inclusive `[min, max]` pair. */
  datatype Range = Range(lo: int, hi: int)

  /** The boost modes the engine infers. */
  datatype Mode = Single | Both | Special

  function ModeName(m: Mode): string {
    match m
    case Single => "single"
    case Both => "both"
    case Special => "special"
  }

  /** `getRangeForRank(rank, mode)`. */
  function RangeForRank(rank: string, mode: string): (r: Option<Range>)
    ensures r.Some? ==> r.value.lo == 1 <= r.value.hi <= 50
    ensures r.Some? <==>
      || (ToUpper(rank) in {"C", "B", "A", "S", "SS", "UR"} && (mode == "single" || mode == "both"))
      || (ToUpper(rank) in {"A", "S", "SS", "UR"} && mode == "special")
  {
    var tier := ToUpper(rank);
    if tier == "C" then
      if mode == "single" then Some(Range(1, 10)) else if mode == "both" then Some(Range(1, 8)) else None
    else if tier == "B" then
      if mode == "single" then Some(Range(1, 15)) else if mode == "both" then Some(Range(1, 12)) else None
    else if tier == "A" then
      if mode == "single" then Some(Range(1, 20)) else if mode == "both" then Some(Range(1, 15))
      else if mode == "special" then Some(Range(1, 5)) else None
    else if tier == "S" then
      if mode == "single" then Some(Range(1, 30)) else if mode == "both" then Some(Range(1, 20))
      else if mode == "special" then Some(Range(1, 8)) else None
    else if tier == "SS" then
      if mode == "single" then Some(Range(1, 40)) else if mode == "both" then Some(Range(1, 25))
      else if mode == "special" then Some(Range(1, 10)) else None
    else if tier == "UR" then
      if mode == "single" then Some(Range(1, 50)) else if mode == "both" then Some(Range(1, 25))
      else if mode == "special" then Some(Range(1, 15)) else None
    else None
  }

  /** The rank is read without regard to case, and a "both" range never reaches past the "single" one. */
  lemma RangeProperties(rank: string)
    ensures RangeForRank(ToLower(rank), "single") == RangeForRank(rank, "single")
    ensures RangeForRank(ToLower(rank), "both") == RangeForRank(rank, "both")
    ensures RangeForRank(ToLower(rank), "special") == RangeForRank(rank, "special")
    ensures RangeForRank(rank, "both").Some? ==>
      RangeForRank(rank, "single").Some? &&
      RangeForRank(rank, "both").value.hi <= RangeForRank(rank, "single").value.hi
    ensures RangeForRank(rank, "special").Some? ==> RangeForRank(rank, "both").Some?
  {
    UpperIgnoresCase(rank);
  }

  // ---------------------------------------------------------------------
  // Stage-aware magnitude

  function Min(a: int, b: int): int { if a <= b then a else b }

  /**
   * The boost for a card at `stage` of a lineage whose highest stage is
   * `maxStage`: the rounded midpoint of the range for a one-stage lineage,
   * otherwise the rounded linear interpolation plus one, capped at `max`.
   */
  function StageValue(r: Range, stage: nat, maxStage: int): int {
    if maxStage <= 1 then RoundHalfUp(r.lo + r.hi, 2)
    else Min(r.hi, RoundHalfUp(r.lo * maxStage + (r.hi - r.lo) * stage, maxStage) + 1)
  }

  /** For a stage within its lineage the value stays inside the range. */
  lemma StageValueInRange(r: Range, stage: nat, maxStage: int)
    requires r.lo <= r.hi && stage <= maxStage
    ensures r.lo <= StageValue(r, stage, maxStage) <= r.hi
  {
    if maxStage > 1 {
      assert (r.hi - r.lo) * stage >= 0;
      RoundMonotone(r.lo * maxStage, r.lo * maxStage + (r.hi - r.lo) * stage, maxStage);
      RoundExact(r.lo, maxStage);
    }
  }

  /** The last stage of a multi-stage lineage gets exactly the top of the range. */
  lemma StageValueAtTop(r: Range, maxStage: int)
    requires r.lo <= r.hi && maxStage > 1
    ensures StageValue(r, maxStage, maxStage) == r.hi
  {
    assert r.lo * maxStage + (r.hi - r.lo) * maxStage == r.hi * maxStage;
    RoundExact(r.hi, maxStage);
  }

  /** A later stage never gets a smaller value. */
  lemma StageValueMonotone(r: Range, s1: nat, s2: nat, maxStage: int)
    requires r.lo <= r.hi && s1 <= s2
    ensures StageValue(r, s1, maxStage) <= StageValue(r, s2, maxStage)
  {
    if maxStage > 1 {
      MulMonotone(r.hi - r.lo + 1, s1, s2);
      assert (r.hi - r.lo) * s1 <= (r.hi - r.lo) * s2 by {
        if r.hi > r.lo { MulMonotone(r.hi - r.lo, s1, s2); }
      }
      RoundMonotone(r.lo * maxStage + (r.hi - r.lo) * s1, r.lo * maxStage + (r.hi - r.lo) * s2, maxStage);
    }
  }

  /**
   * Rank A in "single" mode is [1, 20]. At stage 2 of 4 the interpolation
   * is 10.5, which rounds up to 11, and the `+1` makes it 12. A one-stage
   * lineage gets the rounded midpoint 11 whatever its stage.
   */
  lemma StageValueExamples(stage: nat)
    ensures RangeForRank("A", "single") == Some(Range(1, 20))
    ensures StageValue(Range(1, 20), 2, 4) == 12
    ensures StageValue(Range(1, 20), stage, 1) == 11
  {
    assert ToUpper("A") == "A";
  }

  // ---------------------------------------------------------------------
  // Lineage index (`maxStageMap`)

  /** One step of the index loop: a card raises its lineage's entry to its stage. */
  function RecordStage(m: map<string, nat>, c: Card): map<string, nat> {
    if c.id == [] then m
    else
      var stage := StageOf(c.id);
      var base := BaseOf(c.id);
      var cur := if base in m then m[base] else 0;
      if stage > cur then m[base := stage] else m
  }

  /** `maxStageMap` as built from the catalog in order. */
  function MaxStageIndex(catalog: seq<Card>): map<string, nat> {
    if catalog == [] then map[]
    else RecordStage(MaxStageIndex(catalog[..|catalog| - 1]), catalog[|catalog| - 1])
  }

  /** A card that carries a positive stage within a lineage. */
  predicate Staged(c: Card) { c.id != [] && StageOf(c.id) > 0 }

  /** What one step of the index loop does to each entry. */
  lemma RecordStageStep(m: map<string, nat>, c: Card)
    ensures forall b :: b in m ==> b in RecordStage(m, c) && m[b] <= RecordStage(m, c)[b]
    ensures Staged(c) ==> BaseOf(c.id) in RecordStage(m, c) && StageOf(c.id) <= RecordStage(m, c)[BaseOf(c.id)]
    ensures forall b :: b in RecordStage(m, c) ==>
      (b in m && RecordStage(m, c)[b] == m[b]) ||
      (Staged(c) && b == BaseOf(c.id) && RecordStage(m, c)[b] == StageOf(c.id))
  {
  }

  /** Each lineage's entry bounds the stage of every catalog card of that lineage. */
  lemma {:induction false} MaxStageIndexBounds(catalog: seq<Card>)
    ensures forall i :: 0 <= i < |catalog| && Staged(catalog[i]) ==>
      BaseOf(catalog[i].id) in MaxStageIndex(catalog) &&
      StageOf(catalog[i].id) <= MaxStageIndex(catalog)[BaseOf(catalog[i].id)]
  {
    if catalog != [] {
      var front := catalog[..|catalog| - 1];
      MaxStageIndexBounds(front);
      RecordStageStep(MaxStageIndex(front), catalog[|catalog| - 1]);
      forall i | 0 <= i < |front| ensures catalog[i] == front[i] { }
    }
  }

  /** Each lineage's entry is positive and is the stage of one catalog card of that lineage. */
  lemma {:induction false} MaxStageIndexAttained(catalog: seq<Card>)
    ensures forall b :: b in MaxStageIndex(catalog) ==>
      MaxStageIndex(catalog)[b] > 0 &&
      exists i :: 0 <= i < |catalog| && Staged(catalog[i]) && BaseOf(catalog[i].id) == b &&
                  StageOf(catalog[i].id) == MaxStageIndex(catalog)[b]
  {
    if catalog != [] {
      var n := |catalog| - 1;
      var front := catalog[..n];
      MaxStageIndexAttained(front);
      var m := MaxStageIndex(front);
      RecordStageStep(m, catalog[n]);
      forall b | b in MaxStageIndex(catalog)
        ensures MaxStageIndex(catalog)[b] > 0
        ensures exists i :: 0 <= i < |catalog| && Staged(catalog[i]) && BaseOf(catalog[i].id) == b &&
                            StageOf(catalog[i].id) == MaxStageIndex(catalog)[b]
      {
        if b in m && MaxStageIndex(catalog)[b] == m[b] {
          var i :| 0 <= i < |front| && Staged(front[i]) && BaseOf(front[i].id) == b &&
                   StageOf(front[i].id) == m[b];
          assert catalog[i] == front[i];
        } else {
          assert Staged(catalog[n]) && BaseOf(catalog[n].id) == b;
        }
      }
    }
  }

  /** `maxStageMap.get(base) || 1`. */
  function LiveMaxStage(stages: map<string, nat>, base: string): nat {
    if base in stages && stages[base] != 0 then stages[base] else 1
  }

  /** The stage-aware value of range `r` for the card with id `id`. */
  function CardStageValue(id: string, stages: map<string, nat>, r: Range): int {
    StageValue(r, StageOf(id), LiveMaxStage(stages, BaseOf(id)))
  }

  /** Every catalog card's stage lies within its lineage, so its stage-aware value stays inside the range. */
  lemma CatalogValueInRange(catalog: seq<Card>, c: Card, r: Range)
    requires c in catalog && r.lo <= r.hi
    ensures r.lo <= CardStageValue(c.id, MaxStageIndex(catalog), r) <= r.hi
  {
    MaxStageIndexBounds(catalog);
    var stages := MaxStageIndex(catalog);
    if Staged(c) {
      assert StageOf(c.id) <= LiveMaxStage(stages, BaseOf(c.id));
    }
    StageValueInRange(r, StageOf(c.id), LiveMaxStage(stages, BaseOf(c.id)));
  }

  /** The loop that builds `maxStageMap` (lib/boosts.js:42-53). */
  method BuildMaxStageMap(catalog: seq<Card>) returns (m: map<string, nat>)
    ensures m == MaxStageIndex(catalog)
  {
    m := map[];
    for i := 0 to |catalog|
      invariant m == MaxStageIndex(catalog[..i])
    {
      assert catalog[..i + 1][..i] == catalog[..i];
      var c := catalog[i];
      if c.id == [] {
        continue;
      }
      var stage := StageOf(c.id);
      var base := BaseOf(c.id);
      var cur := if base in m then m[base] else 0;
      if stage > cur {
        m := m[base := stage];
      }
    }
    assert catalog[..|catalog|] == catalog;
  }

  // ---------------------------------------------------------------------
  // Per-card classification

  /** `{ atk, hp, special }` totals, and a per-card contribution. */
  datatype Totals = Totals(atk: int, hp: int, special: int) {
    function Plus(o: Totals): Totals {
      Totals(atk + o.atk, hp + o.hp, special + o.special)
    }
  }

  const Zero := Totals(0, 0, 0)

  /** `c.boost && (c.boost.atk || c.boost.hp || c.boost.special)`. */
  predicate HasExplicitBoost(c: Card) {
    c.boost.Some? && (c.boost.value.atk != 0 || c.boost.value.hp != 0 || c.boost.value.special != 0)
  }

  /** `(c.ability || "").trim()`. */
  function AbilityRaw(c: Card): string {
    Trim(c.ability.GetOr(""))
  }

  /** `String(c.type).toLowerCase() === 'support'`. */
  predicate IsSupport(c: Card) {
    ToLower(c.cardType) == "support"
  }

  predicate NamesAttack(text: string) { Contains(text, "attack") || Contains(text, "atk") }

  predicate NamesHp(text: string) { Contains(text, "hp") || Contains(text, "health") }

  /** Where a percent read from (lower-cased) ability text goes: attack, then both, then special, else HP. */
  function PercentTotals(text: string, n: int): Totals {
    if NamesAttack(text) then Totals(n, 0, 0)
    else if Contains(text, "both") then Totals(n, n, 0)
    else if Contains(text, "special") then Totals(0, 0, n)
    else Totals(0, n, 0)
  }

  /** The keyword part of mode inference, shared by both aggregators: both, attack, special, then HP. */
  function KeywordMode(text: string): Option<Mode> {
    if Contains(text, "both") then Some(Both)
    else if NamesAttack(text) then Some(Single)
    else if Contains(text, "special") then Some(Special)
    else if NamesHp(text) then Some(Single)
    else None
  }

  /** Where a stage-aware value `v` goes for a mode: both ATK and HP, one of them for "single", or SPECIAL. */
  function ModeTotals(mode: Mode, v: int, singleToHp: bool): Totals {
    match mode
    case Both => Totals(v, v, 0)
    case Single => if singleToHp then Totals(0, v, 0) else Totals(v, 0, 0)
    case Special => Totals(0, 0, v)
  }

  /** One card's contribution in `computeTeamBoosts` (lib/boosts.js:59-125). */
  function Contribution(c: Card, stages: map<string, nat>): Totals {
    if HasExplicitBoost(c) then
      var b := c.boost.value;
      Totals(b.atk, b.hp, b.special)
    else
      var raw := AbilityRaw(c);
      var support := IsSupport(c);
      if raw != [] && PercentOf(raw).Some? && !support then PercentTotals(ToLower(raw), PercentOf(raw).value)
      else if raw == [] && !support then Zero
      else InferredTotals(c, stages)
  }

  /**
   * The keyword-inferred part of `computeTeamBoosts` (lib/boosts.js:94-125):
   * a Support card whose text names no stat still gets a "single" boost, and
   * a "single" boost of a Support card goes to HP.
   */
  function InferredTotals(c: Card, stages: map<string, nat>): Totals {
    var support := IsSupport(c);
    var text := ToLower(AbilityRaw(c));
    var mode := if KeywordMode(text).Some? then KeywordMode(text)
                else if support then Some(Single) else None;
    if mode.None? then Zero
    else
      match RangeForRank(c.rank, ModeName(mode.value))
      case None => Zero
      case Some(r) =>
        ModeTotals(mode.value, CardStageValue(c.id, stages, r), NamesHp(text) || support)
  }

  /** The `reason` of a detailed entry; `NoReason` is `null`. */
  datatype Reason = ExplicitBoost | AbilityText | AbilityInferred | SupportDefault | NoReason

  datatype Entry = Entry(id: string, name: string, atk: int, hp: int, special: int, reason: Reason) {
    function Stats(): Totals { Totals(atk, hp, special) }
  }

  /** The entry every resolved card starts from: zero stats and no reason. */
  function BlankEntry(c: Card): Entry { Entry(c.id, c.name, 0, 0, 0, NoReason) }

  /** The entry of `c` with stats `t` and reason `why`. */
  function EntryFor(c: Card, t: Totals, why: Reason): Entry { Entry(c.id, c.name, t.atk, t.hp, t.special, why) }

  /** One card's entry in `computeTeamBoostsDetailed` (lib/boosts.js:137-207). */
  function DetailEntry(c: Card, stages: map<string, nat>): Entry {
    if HasExplicitBoost(c) then
      var b := c.boost.value;
      EntryFor(c, Totals(b.atk, b.hp, b.special), ExplicitBoost)
    else
      var raw := AbilityRaw(c);
      if raw != [] then
        if PercentOf(raw).Some? && !IsSupport(c) then
          EntryFor(c, PercentTotals(ToLower(raw), PercentOf(raw).value), AbilityText)
        else
          match InferredStats(c, stages)
          case None => BlankEntry(c)
          case Some(t) => EntryFor(c, t, AbilityInferred)
      else if IsSupport(c) then
        match RangeForRank(c.rank, "single")
        case None => BlankEntry(c)
        case Some(r) => EntryFor(c, Totals(0, CardStageValue(c.id, stages, r), 0), SupportDefault)
      else BlankEntry(c)
  }

  /**
   * The keyword-inferred stats of `computeTeamBoostsDetailed`
   * (lib/boosts.js:158-186), if a mode and a range are found: no default
   * mode for Support cards, and a "single" boost goes to HP only when the
   * text names HP.
   */
  function InferredStats(c: Card, stages: map<string, nat>): Option<Totals> {
    var text := ToLower(AbilityRaw(c));
    match KeywordMode(text)
    case None => None
    case Some(mode) =>
      match RangeForRank(c.rank, ModeName(mode))
      case None => None
      case Some(r) =>
        Some(ModeTotals(mode, CardStageValue(c.id, stages, r), NamesHp(text)))
  }

  // ---------------------------------------------------------------------
  // Properties of one card

  /** A non-zero explicit `boost` is the whole contribution, whatever the ability text or type. */
  lemma ExplicitBoostWins(c: Card, stages: map<string, nat>)
    requires HasExplicitBoost(c)
    ensures Contribution(c, stages) == Totals(c.boost.value.atk, c.boost.value.hp, c.boost.value.special)
    ensures DetailEntry(c, stages).Stats() == Contribution(c, stages)
    ensures DetailEntry(c, stages).reason == ExplicitBoost
  {
  }

  /**
   * A percent in a non-Support card's ability text goes, whole, to exactly
   * one of: attack; attack and HP; special; HP.
   */
  lemma PercentRule(c: Card, stages: map<string, nat>)
    requires !HasExplicitBoost(c) && !IsSupport(c) && PercentOf(AbilityRaw(c)).Some?
    ensures var n := PercentOf(AbilityRaw(c)).value;
            var text := ToLower(AbilityRaw(c));
            var t := Contribution(c, stages);
            && DetailEntry(c, stages).Stats() == t
            && DetailEntry(c, stages).reason == AbilityText
            && (NamesAttack(text) ==> t == Totals(n, 0, 0))
            && (!NamesAttack(text) && Contains(text, "both") ==> t == Totals(n, n, 0))
            && (!NamesAttack(text) && !Contains(text, "both") && Contains(text, "special") ==> t == Totals(0, 0, n))
            && (!NamesAttack(text) && !Contains(text, "both") && !Contains(text, "special") ==> t == Totals(0, n, 0))
  {
    assert AbilityRaw(c) != [];
  }

  /** "Boosts team ATK and HP by 12%" needs no trimming. */
  lemma TrimAtkAndHp()
    ensures Trim("Boosts team ATK and HP by 12%") == "Boosts team ATK and HP by 12%"
  {
    var s := "Boosts team ATK and HP by 12%";
    assert SkipSpaces(s, 0) == 0;
    assert EndOfContent(s, |s|) == |s|;
  }

  /** Lower-cased, "Boosts team ATK and HP by 12%" names attack. */
  lemma AtkAndHpNamesAttack()
    ensures NamesAttack(ToLower("Boosts team ATK and HP by 12%"))
  {
    var text := ToLower("Boosts team ATK and HP by 12%");
    assert text[12] == 'a' && text[13] == 't' && text[14] == 'k';
    assert OccursAt(text, "atk", 12);
  }

  /** The only percent token in "Boosts team ATK and HP by 12%" starts at position 26. */
  lemma PercentTokenAt26()
    ensures MatchAt(PercentToken, "Boosts team ATK and HP by 12%", 26) == Some(Found(26, 29, ["12"]))
  {
    var s := "Boosts team ATK and HP by 12%";
    assert IsDigit(s[26]) && IsDigit(s[27]) && !IsDigit(s[28]);
    assert SpanOf(s, 28, Digit) == 28;
    assert SpanOf(s, 27, Digit) == 28;
    assert SpanOf(s, 26, Digit) == 28;
    assert SkipSpaces(s, 28) == 28;
    assert s[26..28] == "12";
  }

  lemma NoDigitBefore26()
    ensures forall k :: 0 <= k < 26 ==> !IsDigit("Boosts team ATK and HP by 12%"[k])
  {
  }

  lemma FirstPercentAt26()
    ensures Search(PercentToken, "Boosts team ATK and HP by 12%", 0) == Some(Found(26, 29, ["12"]))
  {
    PercentTokenAt26();
    NoDigitBefore26();
    PercentNeedsDigit("Boosts team ATK and HP by 12%", 0, 26);
  }

  lemma ParseTwelve()
    ensures ParseDigits("12") == 12
  {
    assert "12"[..1] == "1";
  }

  /** The percent in "Boosts team ATK and HP by 12%" is 12. */
  lemma ReadAtkAndHpPercent()
    ensures PercentOf("Boosts team ATK and HP by 12%") == Some(12)
  {
    FirstPercentAt26();
    ParseTwelve();
  }

  /** "Boosts team ATK and HP by 12%" on a non-Support card adds 12 to attack only: "atk" is checked before "both". */
  lemma AtkAndHpText(c: Card, stages: map<string, nat>)
    requires !HasExplicitBoost(c) && !IsSupport(c) && c.ability == Some("Boosts team ATK and HP by 12%")
    ensures Contribution(c, stages) == Totals(12, 0, 0)
    ensures DetailEntry(c, stages).Stats() == Totals(12, 0, 0)
  {
    TrimAtkAndHp();
    AtkAndHpNamesAttack();
    ReadAtkAndHpPercent();
  }

  /** A Support card with no ability text gets the stage value of its "single" range, all of it to HP. */
  lemma SupportDefaultRule(c: Card, stages: map<string, nat>)
    requires !HasExplicitBoost(c) && IsSupport(c) && AbilityRaw(c) == []
    ensures RangeForRank(c.rank, "single").None? ==> Contribution(c, stages) == Zero
    ensures RangeForRank(c.rank, "single").Some? ==>
      var v := CardStageValue(c.id, stages, RangeForRank(c.rank, "single").value);
      && Contribution(c, stages) == Totals(0, v, 0)
      && DetailEntry(c, stages).Stats() == Totals(0, v, 0)
      && DetailEntry(c, stages).reason == SupportDefault
  {
    assert !Contains([], "both") && !Contains([], "attack") && !Contains([], "atk");
    assert !Contains([], "special") && !Contains([], "hp") && !Contains([], "health");
  }

  /**
   * The two aggregators agree on every card except a Support card with
   * ability text and no explicit boost.
   */
  lemma AggregatorsAgree(c: Card, stages: map<string, nat>)
    requires HasExplicitBoost(c) || !IsSupport(c) || AbilityRaw(c) == []
    ensures DetailEntry(c, stages).Stats() == Contribution(c, stages)
  {
    if HasExplicitBoost(c) {
      ExplicitBoostWins(c, stages);
    } else if IsSupport(c) {
      SupportDefaultRule(c, stages);
    } else if AbilityRaw(c) != [] && PercentOf(AbilityRaw(c)).None? {
      InferredAgree(c, stages);
    }
  }

  /** For a card that is not a Support card, both aggregators infer the same stats from its text. */
  lemma InferredAgree(c: Card, stages: map<string, nat>)
    requires !HasExplicitBoost(c) && !IsSupport(c) && AbilityRaw(c) != [] && PercentOf(AbilityRaw(c)).None?
    ensures DetailEntry(c, stages).Stats() == InferredTotals(c, stages) == Contribution(c, stages)
  {
    assert DetailEntry(c, stages) == match InferredStats(c, stages)
                                      case None => BlankEntry(c)
                                      case Some(t) => EntryFor(c, t, AbilityInferred);
    assert Contribution(c, stages) == InferredTotals(c, stages);
  }

  lemma TrimRaisesAttack()
    ensures Trim("Raises attack") == "Raises attack"
  {
    var s := "Raises attack";
    assert SkipSpaces(s, 0) == 0;
    assert EndOfContent(s, |s|) == |s|;
  }

  lemma LowerRaisesAttack()
    ensures ToLower("Raises attack") == "raises attack"
  {
  }

  lemma ReadRaisesAttackKeywords()
    ensures KeywordMode("raises attack") == Some(Single)
    ensures !NamesHp("raises attack")
  {
    var text := "raises attack";
    assert OccursAt(text, "attack", 7);
    MissingFirstChar(text, "both");
    MissingFirstChar(text, "hp");
    MissingFirstChar(text, "health");
  }

  lemma LowerSupport()
    ensures ToLower("Support") == "support"
  {
  }

  lemma ReadRankC()
    ensures RangeForRank("C", "single") == Some(Range(1, 10))
  {
    assert ToUpper("C") == "C";
  }

  /** "helper", alone in its lineage, gets the rounded midpoint of [1, 10]. */
  lemma HelperStageValue(stages: map<string, nat>)
    requires "helper" !in stages
    ensures CardStageValue("helper", stages, Range(1, 10)) == 6
  {
    assert TrailingDigits("helper") == 0;
  }

  /** A rank C Support card reading "Raises attack" gives HP in one aggregator and attack in the other. */
  lemma SupportTextDisagreement(stages: map<string, nat>)
    requires "helper" !in stages
    ensures var c := Card("helper", "Helper", "C", "Support", Some("Raises attack"), None);
            && Contribution(c, stages) == Totals(0, 6, 0)
            && DetailEntry(c, stages).Stats() == Totals(6, 0, 0)
  {
    TrimRaisesAttack();
    LowerRaisesAttack();
    ReadRaisesAttackKeywords();
    LowerSupport();
    ReadRankC();
    HelperStageValue(stages);
  }

  // ---------------------------------------------------------------------
  // Rosters

  /** The sum of `f` over the ids of a roster, taken in roster order. */
  function SumBy(f: string -> Totals, ids: seq<string>): Totals {
    if ids == [] then Zero else SumBy(f, ids[..|ids| - 1]).Plus(f(ids[|ids| - 1]))
  }

  /** The entries `g` gives for the ids of a roster, joined in roster order. */
  function JoinBy(g: string -> seq<Entry>, ids: seq<string>): seq<Entry> {
    if ids == [] then [] else JoinBy(g, ids[..|ids| - 1]) + g(ids[|ids| - 1])
  }

  /** The sum of the entries' stats. */
  function EntrySum(es: seq<Entry>): Totals {
    if es == [] then Zero else EntrySum(es[..|es| - 1]).Plus(es[|es| - 1].Stats())
  }

  lemma {:induction false} SumByConcat(f: string -> Totals, a: seq<string>, b: seq<string>)
    ensures SumBy(f, a + b) == SumBy(f, a).Plus(SumBy(f, b))
    decreases |b|
  {
    if b == [] {
      assert a + b == a;
    } else {
      var n := |b| - 1;
      assert (a + b)[..|a + b| - 1] == a + b[..n];
      SumByConcat(f, a, b[..n]);
    }
  }

  /** A term inserted anywhere in a sum adds itself to the sum. */
  lemma SumByInsert(f: string -> Totals, a: seq<string>, x: string, b: seq<string>)
    ensures SumBy(f, a + [x] + b) == SumBy(f, a + b).Plus(f(x))
  {
    var l, r, t := SumBy(f, a), SumBy(f, b), f(x);
    var ax := a + [x];
    assert SumBy(f, ax) == l.Plus(t) by {
      SumByConcat(f, a, [x]);
      SumBySingle(f, x);
    }
    assert SumBy(f, ax + b) == l.Plus(t).Plus(r) by {
      SumByConcat(f, ax, b);
    }
    assert SumBy(f, a + b) == l.Plus(r) by {
      SumByConcat(f, a, b);
    }
    PlusSwap(l, t, r);
  }

  lemma PlusSwap(l: Totals, t: Totals, r: Totals)
    ensures l.Plus(t).Plus(r) == l.Plus(r).Plus(t)
  {
  }

  /** A sum does not depend on the order of its terms. */
  lemma {:induction false} SumByOrderFree(f: string -> Totals, a: seq<string>, b: seq<string>)
    requires multiset(a) == multiset(b)
    ensures SumBy(f, a) == SumBy(f, b)
    decreases |a|
  {
    if a == [] {
      assert |b| == |multiset(b)|;
    } else {
      var n := |a| - 1;
      var x := a[n];
      assert a == a[..n] + [x];
      assert x in multiset(b);
      var j :| 0 <= j < |b| && b[j] == x;
      var rest := b[..j] + b[j + 1..];
      assert multiset(a[..n]) == multiset(rest) by {
        assert b == b[..j] + [x] + b[j + 1..];
        assert multiset(b) == multiset(b[..j]) + multiset{x} + multiset(b[j + 1..]);
        assert multiset(rest) == multiset(b[..j]) + multiset(b[j + 1..]);
        assert multiset(a) == multiset(a[..n]) + multiset{x};
        assert multiset(a[..n]) == multiset(a) - multiset{x};
        assert multiset(rest) == multiset(b) - multiset{x};
      }
      SumByOrderFree(f, a[..n], rest);
      assert b == b[..j] + [x] + b[j + 1..];
      SumByInsert(f, b[..j], x, b[j + 1..]);
    }
  }

  lemma {:induction false} JoinByConcat(g: string -> seq<Entry>, a: seq<string>, b: seq<string>)
    ensures JoinBy(g, a + b) == JoinBy(g, a) + JoinBy(g, b)
    decreases |b|
  {
    if b == [] {
      assert a + b == a;
    } else {
      var n := |b| - 1;
      assert (a + b)[..|a + b| - 1] == a + b[..n];
      JoinByConcat(g, a, b[..n]);
    }
  }

  lemma {:induction false} EntrySumConcat(es: seq<Entry>, fs: seq<Entry>)
    ensures EntrySum(es + fs) == EntrySum(es).Plus(EntrySum(fs))
    decreases |fs|
  {
    if fs == [] {
      assert es + fs == es;
    } else {
      var n := |fs| - 1;
      assert (es + fs)[..|es + fs| - 1] == es + fs[..n];
      EntrySumConcat(es, fs[..n]);
    }
  }

  lemma SumBySingle(f: string -> Totals, x: string)
    ensures SumBy(f, [x]) == f(x)
  {
    assert [x][..0] == [];
  }

  lemma JoinBySingle(g: string -> seq<Entry>, x: string)
    ensures JoinBy(g, [x]) == g(x)
  {
    assert [x][..0] == [];
  }

  /** When each id's entries add up to its contribution, all the entries add up to the sum of contributions. */
  lemma {:induction false} JoinBySum(f: string -> Totals, g: string -> seq<Entry>, ids: seq<string>)
    requires forall k :: 0 <= k < |ids| ==> EntrySum(g(ids[k])) == f(ids[k])
    ensures EntrySum(JoinBy(g, ids)) == SumBy(f, ids)
  {
    if ids != [] {
      var n := |ids| - 1;
      var front := ids[..n];
      assert forall k :: 0 <= k < |front| ==> EntrySum(g(front[k])) == f(front[k]) by {
        forall k | 0 <= k < |front| ensures EntrySum(g(front[k])) == f(front[k]) {
          assert front[k] == ids[k];
        }
      }
      JoinBySum(f, g, front);
      assert JoinBy(g, ids) == JoinBy(g, front) + g(ids[n]);
      EntrySumConcat(JoinBy(g, front), g(ids[n]));
      assert EntrySum(g(ids[n])) == f(ids[n]);
    }
  }

  /** One roster id's contribution: an id the lookup does not resolve adds nothing. */
  function ContributionOf(catalog: seq<Card>, stages: map<string, nat>, id: string): Totals {
    match Lookup(catalog, id)
    case None => Zero
    case Some(c) => Contribution(c, stages)
  }

  /** One roster id's entries: none for an id the lookup does not resolve, else exactly its card's entry. */
  function EntriesOf(catalog: seq<Card>, stages: map<string, nat>, id: string): (es: seq<Entry>)
    ensures Lookup(catalog, id).None? <==> es == []
  {
    match Lookup(catalog, id)
    case None => []
    case Some(c) => [DetailEntry(c, stages)]
  }

  /** What `computeTeamBoosts` returns for a roster: the sum of its ids' contributions. */
  function TeamTotals(catalog: seq<Card>, stages: map<string, nat>, ids: seq<string>): Totals {
    SumBy(id => ContributionOf(catalog, stages, id), ids)
  }

  /** The entries `computeTeamBoostsDetailed` pushes: one per resolved id, in roster order. */
  function Details(catalog: seq<Card>, stages: map<string, nat>, ids: seq<string>): seq<Entry> {
    JoinBy(id => EntriesOf(catalog, stages, id), ids)
  }

  /** Both results of a roster split in two are the results of the halves, combined in order. */
  lemma RosterConcat(catalog: seq<Card>, stages: map<string, nat>, a: seq<string>, b: seq<string>)
    ensures TeamTotals(catalog, stages, a + b) == TeamTotals(catalog, stages, a).Plus(TeamTotals(catalog, stages, b))
    ensures Details(catalog, stages, a + b) == Details(catalog, stages, a) + Details(catalog, stages, b)
  {
    SumByConcat(id => ContributionOf(catalog, stages, id), a, b);
    JoinByConcat(id => EntriesOf(catalog, stages, id), a, b);
  }

  /** The totals do not depend on the order of the roster: any rearrangement of the same ids gives the same totals. */
  lemma TeamTotalsOrderFree(catalog: seq<Card>, stages: map<string, nat>, a: seq<string>, b: seq<string>)
    requires multiset(a) == multiset(b)
    ensures TeamTotals(catalog, stages, a) == TeamTotals(catalog, stages, b)
  {
    SumByOrderFree(id => ContributionOf(catalog, stages, id), a, b);
  }

  /** A roster of one id yields that id's contribution and entries. */
  lemma OneId(catalog: seq<Card>, stages: map<string, nat>, id: string)
    ensures TeamTotals(catalog, stages, [id]) == ContributionOf(catalog, stages, id)
    ensures Details(catalog, stages, [id]) == EntriesOf(catalog, stages, id)
  {
    SumBySingle(id => ContributionOf(catalog, stages, id), id);
    JoinBySingle(id => EntriesOf(catalog, stages, id), id);
  }

  /** An id that adds nothing can be dropped from a sum. */
  lemma SumBySkip(f: string -> Totals, a: seq<string>, x: string, b: seq<string>)
    requires f(x) == Zero
    ensures SumBy(f, a + [x] + b) == SumBy(f, a + b)
  {
    SumByInsert(f, a, x, b);
  }

  /** An id that gives no entries can be dropped from a join. */
  lemma JoinBySkip(g: string -> seq<Entry>, a: seq<string>, x: string, b: seq<string>)
    requires g(x) == []
    ensures JoinBy(g, a + [x] + b) == JoinBy(g, a + b)
  {
    JoinByConcat(g, a + [x], b);
    JoinByConcat(g, a, [x]);
    JoinBySingle(g, x);
    assert JoinBy(g, a + [x]) == JoinBy(g, a);
    JoinByConcat(g, a, b);
  }

  /** An id the catalog does not hold can be dropped from a roster without changing either result. */
  lemma UnknownIdSkipped(catalog: seq<Card>, stages: map<string, nat>, a: seq<string>, id: string, b: seq<string>)
    requires forall i :: 0 <= i < |catalog| ==> catalog[i].id != id
    ensures TeamTotals(catalog, stages, a + [id] + b) == TeamTotals(catalog, stages, a + b)
    ensures Details(catalog, stages, a + [id] + b) == Details(catalog, stages, a + b)
  {
    assert Lookup(catalog, id).None?;
    SumBySkip(id => ContributionOf(catalog, stages, id), a, id, b);
    JoinBySkip(id => EntriesOf(catalog, stages, id), a, id, b);
  }

  /** A roster of one resolved id yields that card's contribution and exactly its entry. */
  lemma OneResolvedId(catalog: seq<Card>, stages: map<string, nat>, id: string, c: Card)
    requires Lookup(catalog, id) == Some(c)
    ensures TeamTotals(catalog, stages, [id]) == Contribution(c, stages)
    ensures Details(catalog, stages, [id]) == [DetailEntry(c, stages)]
  {
    OneId(catalog, stages, id);
  }

  /**
   * When no resolved card is a Support card with ability text and no
   * explicit boost, the detailed entries add up to the plain totals.
   */
  lemma RosterAggregatorsAgree(catalog: seq<Card>, stages: map<string, nat>, ids: seq<string>)
    requires forall k :: 0 <= k < |ids| && Lookup(catalog, ids[k]).Some? ==>
      HasExplicitBoost(Lookup(catalog, ids[k]).value) || !IsSupport(Lookup(catalog, ids[k]).value) ||
      AbilityRaw(Lookup(catalog, ids[k]).value) == []
    ensures EntrySum(Details(catalog, stages, ids)) == TeamTotals(catalog, stages, ids)
  {
    forall k | 0 <= k < |ids|
      ensures EntrySum(EntriesOf(catalog, stages, ids[k])) == ContributionOf(catalog, stages, ids[k])
    {
      match Lookup(catalog, ids[k])
      case None =>
      case Some(c) =>
        AggregatorsAgree(c, stages);
        assert [DetailEntry(c, stages)][..0] == [];
    }
    JoinBySum(id => ContributionOf(catalog, stages, id), id => EntriesOf(catalog, stages, id), ids);
  }

  /** Inferred boosts of a catalog card are never negative and never above 50, the top of the table. */
  lemma InferredBounds(catalog: seq<Card>, c: Card)
    requires c in catalog
    ensures var t := InferredTotals(c, MaxStageIndex(catalog));
      0 <= t.atk <= 50 && 0 <= t.hp <= 50 && 0 <= t.special <= 50
  {
    var text := ToLower(AbilityRaw(c));
    var mode := if KeywordMode(text).Some? then KeywordMode(text)
                else if IsSupport(c) then Some(Single) else None;
    if mode.Some? {
      match RangeForRank(c.rank, ModeName(mode.value)) {
        case None =>
        case Some(r) => CatalogValueInRange(catalog, c, r);
      }
    }
  }

  /** The same bounds hold for the inferred stats of the detailed aggregator. */
  lemma InferredStatsBounds(catalog: seq<Card>, c: Card)
    requires c in catalog
    ensures var t := InferredStats(c, MaxStageIndex(catalog));
      t.Some? ==> 0 <= t.value.atk <= 50 && 0 <= t.value.hp <= 50 && 0 <= t.value.special <= 50
  {
    match KeywordMode(ToLower(AbilityRaw(c))) {
      case None =>
      case Some(mode) =>
        match RangeForRank(c.rank, ModeName(mode)) {
          case None =>
          case Some(r) => CatalogValueInRange(catalog, c, r);
        }
    }
  }

  /**
   * With the index built from the catalog, a catalog card without an
   * explicit boost never gets a negative boost, and never more than 999
   * (the largest three-digit percent) on any stat.
   */
  lemma ContributionBounds(catalog: seq<Card>, c: Card)
    requires c in catalog && !HasExplicitBoost(c)
    ensures var t := Contribution(c, MaxStageIndex(catalog));
      0 <= t.atk <= 999 && 0 <= t.hp <= 999 && 0 <= t.special <= 999
  {
    var raw := AbilityRaw(c);
    if !(raw != [] && PercentOf(raw).Some? && !IsSupport(c)) && !(raw == [] && !IsSupport(c)) {
      InferredBounds(catalog, c);
    }
  }

  /** The same bounds hold for the detailed entry. */
  lemma DetailEntryBounds(catalog: seq<Card>, c: Card)
    requires c in catalog && !HasExplicitBoost(c)
    ensures var e := DetailEntry(c, MaxStageIndex(catalog));
      0 <= e.atk <= 999 && 0 <= e.hp <= 999 && 0 <= e.special <= 999
  {
    var raw := AbilityRaw(c);
    if raw != [] && !(PercentOf(raw).Some? && !IsSupport(c)) {
      InferredEntryBounds(catalog, c);
    } else if raw == [] && IsSupport(c) {
      DefaultEntryBounds(catalog, c);
    } else if raw != [] {
      PercentEntryBounds(catalog, c);
    }
  }

  lemma PercentEntryBounds(catalog: seq<Card>, c: Card)
    requires !HasExplicitBoost(c) && AbilityRaw(c) != [] && PercentOf(AbilityRaw(c)).Some? && !IsSupport(c)
    ensures var e := DetailEntry(c, MaxStageIndex(catalog));
      0 <= e.atk <= 999 && 0 <= e.hp <= 999 && 0 <= e.special <= 999
  {
  }

  lemma InferredEntryBounds(catalog: seq<Card>, c: Card)
    requires c in catalog && !HasExplicitBoost(c)
    requires AbilityRaw(c) != [] && !(PercentOf(AbilityRaw(c)).Some? && !IsSupport(c))
    ensures var e := DetailEntry(c, MaxStageIndex(catalog));
      0 <= e.atk <= 50 && 0 <= e.hp <= 50 && 0 <= e.special <= 50
  {
    InferredStatsBounds(catalog, c);
  }

  lemma DefaultEntryBounds(catalog: seq<Card>, c: Card)
    requires c in catalog && !HasExplicitBoost(c) && AbilityRaw(c) == [] && IsSupport(c)
    ensures var e := DetailEntry(c, MaxStageIndex(catalog));
      0 <= e.atk <= 50 && 0 <= e.hp <= 50 && 0 <= e.special <= 50
  {
    match RangeForRank(c.rank, "single") {
      case None =>
      case Some(r) => CatalogValueInRange(catalog, c, r);
    }
  }

  /** The loop of `computeTeamBoosts` (lib/boosts.js:55-128); `None` stands for a non-array argument. */
  method ComputeTeamBoosts(catalog: seq<Card>, stages: map<string, nat>, teamIds: Option<seq<string>>)
    returns (out: Totals)
    ensures teamIds.None? ==> out == Zero
    ensures teamIds.Some? ==> out == TeamTotals(catalog, stages, teamIds.value)
  {
    out := Zero;
    if teamIds.None? {
      return;
    }
    var ids := teamIds.value;
    for i := 0 to |ids|
      invariant out == TeamTotals(catalog, stages, ids[..i])
    {
      assert ids[..i + 1][..i] == ids[..i];
      assert TeamTotals(catalog, stages, ids[..i + 1])
        == TeamTotals(catalog, stages, ids[..i]).Plus(ContributionOf(catalog, stages, ids[i]));
      var found := Lookup(catalog, ids[i]);
      if found.None? {
        continue;
      }
      out := AddCard(out, found.value, stages);
    }
    assert ids[..|ids|] == ids;
  }

  /** The body of the `computeTeamBoosts` loop for one resolved card (lib/boosts.js:62-125). */
  method AddCard(out: Totals, c: Card, stages: map<string, nat>) returns (next: Totals)
    ensures next == out.Plus(Contribution(c, stages))
  {
    next := out;
    if HasExplicitBoost(c) {
      var b := c.boost.value;
      if b.atk != 0 { next := next.(atk := next.atk + b.atk); }
      if b.hp != 0 { next := next.(hp := next.hp + b.hp); }
      if b.special != 0 { next := next.(special := next.special + b.special); }
      return;
    }
    var abilityRaw := AbilityRaw(c);
    var isSupport := IsSupport(c);
    if abilityRaw != [] {
      var pctMatch := PercentOf(abilityRaw);
      var ability := ToLower(abilityRaw);
      if pctMatch.Some? && !isSupport {
        var num := pctMatch.value;
        assert Contribution(c, stages) == PercentTotals(ability, num);
        if NamesAttack(ability) {
          next := next.(atk := next.atk + num);
        } else if Contains(ability, "both") {
          next := next.(atk := next.atk + num, hp := next.hp + num);
        } else if Contains(ability, "special") {
          next := next.(special := next.special + num);
        } else {
          next := next.(hp := next.hp + num);
        }
        assert next == out.Plus(PercentTotals(ability, num));
        return;
      }
    }
    if abilityRaw == [] && !isSupport {
      assert Contribution(c, stages) == Zero;
      return;
    }
    assert Contribution(c, stages) == InferredTotals(c, stages);
    next := AddInferred(next, c, stages);
  }

  /**
   * The keyword cascade that picks a mode (lib/boosts.js:97-102 and
   * 159-163); only `computeTeamBoosts` falls back to "single" for a Support
   * card, which `supportDefault` says.
   */
  method InferMode(ability: string, supportDefault: bool) returns (mode: Option<Mode>)
    ensures KeywordMode(ability).Some? ==> mode == KeywordMode(ability)
    ensures KeywordMode(ability).None? ==> mode == if supportDefault then Some(Single) else None
  {
    mode := None;
    if Contains(ability, "both") {
      mode := Some(Both);
    } else if NamesAttack(ability) {
      mode := Some(Single);
    } else if Contains(ability, "special") {
      mode := Some(Special);
    } else if NamesHp(ability) {
      mode := Some(Single);
    } else if supportDefault {
      mode := Some(Single);
    }
  }

  /** Mode inference and the stage-aware value (lib/boosts.js:94-125), once the explicit and percent rules did not apply. */
  method AddInferred(out: Totals, c: Card, stages: map<string, nat>) returns (next: Totals)
    ensures next == out.Plus(InferredTotals(c, stages))
  {
    next := out;
    var isSupport := IsSupport(c);
    var ability := ToLower(AbilityRaw(c));
    var mode := InferMode(ability, isSupport);
    if mode.None? {
      assert InferredTotals(c, stages) == Zero;
      return;
    }
    var range := RangeForRank(c.rank, ModeName(mode.value));
    if range.None? {
      assert InferredTotals(c, stages) == Zero;
      return;
    }
    var val := CardStageValue(c.id, stages, range.value);
    next := AddModeValue(next, mode.value, val, NamesHp(ability) || isSupport);
  }

  /** Adding the value to the totals by mode (lib/boosts.js:122-125). */
  method AddModeValue(out: Totals, mode: Mode, val: int, singleToHp: bool) returns (next: Totals)
    ensures next == out.Plus(ModeTotals(mode, val, singleToHp))
  {
    next := out;
    match mode
    case Both =>
      next := next.(atk := next.atk + val, hp := next.hp + val);
    case Single =>
      if singleToHp {
        next := next.(hp := next.hp + val);
      } else {
        next := next.(atk := next.atk + val);
      }
    case Special =>
      next := next.(special := next.special + val);
  }

  /** The loop of `computeTeamBoostsDetailed` (lib/boosts.js:130-214); `None` stands for a non-array argument. */
  method ComputeTeamBoostsDetailed(catalog: seq<Card>, stages: map<string, nat>, teamIds: Option<seq<string>>)
    returns (totals: Totals, details: seq<Entry>)
    ensures teamIds.None? ==> totals == Zero && details == []
    ensures teamIds.Some? ==> details == Details(catalog, stages, teamIds.value)
    ensures totals == EntrySum(details)
  {
    totals := Zero;
    details := [];
    if teamIds.None? {
      return;
    }
    var ids := teamIds.value;
    for i := 0 to |ids|
      invariant details == Details(catalog, stages, ids[..i])
      invariant totals == EntrySum(details)
    {
      DetailsStep(catalog, stages, ids, i);
      var found := Lookup(catalog, ids[i]);
      if found.None? {
        continue;
      }
      var entry := BuildEntry(found.value, stages);
      totals := totals.(atk := totals.atk + entry.atk, hp := totals.hp + entry.hp,
                        special := totals.special + entry.special);
      EntrySumSnoc(details, entry);
      details := details + [entry];
    }
    assert ids[..|ids|] == ids;
  }

  /** One more id adds that id's entries, if any, to the details. */
  lemma DetailsStep(catalog: seq<Card>, stages: map<string, nat>, ids: seq<string>, i: nat)
    requires i < |ids|
    ensures Details(catalog, stages, ids[..i + 1]) == Details(catalog, stages, ids[..i]) + EntriesOf(catalog, stages, ids[i])
  {
    assert ids[..i + 1][..i] == ids[..i];
  }

  /** One more entry adds its stats to the sum. */
  lemma EntrySumSnoc(es: seq<Entry>, e: Entry)
    ensures EntrySum(es + [e]) == EntrySum(es).Plus(e.Stats())
  {
    assert (es + [e])[..|es|] == es;
  }

  /** The body of the `computeTeamBoostsDetailed` loop for one resolved card (lib/boosts.js:137-208). */
  method BuildEntry(c: Card, stages: map<string, nat>) returns (entry: Entry)
    ensures entry == DetailEntry(c, stages)
  {
    entry := BlankEntry(c);
    if HasExplicitBoost(c) {
      var b := c.boost.value;
      entry := entry.(atk := b.atk);
      entry := entry.(hp := b.hp);
      entry := entry.(special := b.special);
      entry := entry.(reason := ExplicitBoost);
      return;
    }
    var abilityRaw := AbilityRaw(c);
    if abilityRaw != [] {
      var pctMatch := PercentOf(abilityRaw);
      var ability := ToLower(abilityRaw);
      var isSupport := IsSupport(c);
      if pctMatch.Some? && !isSupport {
        var num := pctMatch.value;
        assert DetailEntry(c, stages) == EntryFor(c, PercentTotals(ability, num), AbilityText);
        if NamesAttack(ability) {
          entry := entry.(atk := num);
        } else if Contains(ability, "both") {
          entry := entry.(atk := num, hp := num);
        } else if Contains(ability, "special") {
          entry := entry.(special := num);
        } else {
          entry := entry.(hp := num);
        }
        entry := entry.(reason := AbilityText);
      } else {
        entry := InferEntry(c, stages);
      }
    } else if IsSupport(c) {
      var range := RangeForRank(c.rank, "single");
      if range.Some? {
        entry := entry.(hp := CardStageValue(c.id, stages, range.value));
        entry := entry.(reason := SupportDefault);
      }
    }
  }

  /** Mode inference for the detailed entry (lib/boosts.js:158-186). */
  method InferEntry(c: Card, stages: map<string, nat>) returns (entry: Entry)
    ensures entry == match InferredStats(c, stages)
                     case None => BlankEntry(c)
                     case Some(t) => EntryFor(c, t, AbilityInferred)
  {
    entry := BlankEntry(c);
    var ability := ToLower(AbilityRaw(c));
    var mode := InferMode(ability, false);
    if mode.Some? {
      var range := RangeForRank(c.rank, ModeName(mode.value));
      if range.Some? {
        var val := CardStageValue(c.id, stages, range.value);
        match mode.value {
          case Both =>
            entry := entry.(atk := val, hp := val);
          case Single =>
            if NamesHp(ability) {
              entry := entry.(hp := val);
            } else {
              entry := entry.(atk := val);
            }
          case Special =>
            entry := entry.(special := val);
        }
        entry := entry.(reason := AbilityInferred);
      }
    }
  }
}
