# Support boosts of a collectible-card bot, in Dafny

This project models the boost logic of a card-game bot and proves properties of it. It covers three parts of the repository:

- **The live boost engine** (`lib/boosts.js`). Each card of a team roster contributes ATK, HP and SPECIAL percentages. The engine decides a card's contribution in a fixed order:
  1. an explicit `boost` object;
  2. a percent written in the ability text (only for non-Support cards);
  3. a mode inferred from keywords, with the size taken from the card's rank and its stage within its lineage;
  4. the Support default (an HP boost).

  There are two aggregators:
  - `computeTeamBoosts` returns the totals;
  - `computeTeamBoostsDetailed` returns the totals plus one entry per resolved card, each with a reason.
- **The catalog patcher** (`scripts/apply_support_boosts.js`). It rewrites the catalog's source text record by record. A Support record with an `id` and a `rank` field is changed as follows:
  - `ability: null` or an ability string without a percent is replaced by a generated ability and a `boost` object;
  - an ability string with a percent is kept, and a `boost` line for that percent is added after it;
  - without an ability field, the generated fields go after the `image: "...",` field.

  A record with none of these fields is left as it is. So is every other record: one that is not typed `Support`, or that lacks an `id` or a `rank` field. The pass stops at the first record whose braces never close, and the text after it is left as it is.
- **The drift validator** (`scripts/list_supports_missing_boosts.js`). It lists the Support cards whose ability or boost is missing.

## Modules

Modules follow the program:

| module | file | contents |
|---|---|---|
| `Optional` | `optional.dfy` | `Option` |
| `Text` | `text.dfy` | The JavaScript string operations used: `\s` and `trim`, ASCII case mapping, `indexOf`, `includes`, `parseInt` of digits, and `${n}` |
| `Patterns` | `patterns.dfy` | The handful of regular expressions used, each a value of a small pattern datatype with a leftmost-match semantics; `String.prototype.replace` for a first match, including `$n` expansion |
| `Stages` | `stages.dfy` | The stage suffix of a card id (`_(\d{2})$ \|\| _(\d+)$`) and its base id |
| `Rounding` | `rounding.dfy` | `Math.round` of a non-negative rational, exactly |
| `Catalog` | `catalog.dfy` | Card records and the id lookup |
| `Boosts` | `boosts.dfy` | The engine |
| `Patcher` | `patcher.dfy` | The patcher |
| `Validator` | `validator.dfy` | The validator |

How each part of the source is modelled:

- The engine's pure parts are functions:
  - the rank table;
  - the stage value;
  - one card's contribution, `Contribution`;
  - one card's detailed entry, `DetailEntry`.

  Its loops are methods proved equal to those functions:
  - `BuildMaxStageMap`, the stage index;
  - `ComputeTeamBoosts`;
  - `ComputeTeamBoostsDetailed`.

  The module-level `maxStageMap` is passed as the `stages` parameter. The lemmas about it require that it was built from the same catalog.
- The patcher is imperative:
  - `CollectStageGroups` and `MaxPerLineage` fill the stage index;
  - `FindRecordEnd` is the brace-depth scan;
  - `PatchAll` is the `while (true)` loop that splices rewritten records into the text buffer.

  Each is proved against a function (`StageGroups`, `RecordEnd`, `PatchFrom`), and the properties are proved about those functions.
- The validator is a pure function over the catalog.

Where the source and its design description differ, or the source does something its authors evidently did not intend, the model follows the source:

- **An ability such as "Boosts team ATK and HP by 12%" boosts ATK only.** The percent branch tests `attack`/`atk` before `both`, so this text gives ATK 12 and no HP (`Boosts.AtkAndHpText`).
- **The patcher is not idempotent.** A record whose ability already holds a percent gets one more `boost:` line on every run.
- **The patcher's keyword tests differ from the engine's.** It recognises `attack` but not `atk`. Its mode choice tests attack → special → both → hp, while the engine tests both → attack. Its kept-percent branch tests attack → both → special, a third order.
- **`Support` is matched case-sensitively** in the patcher and in the validator. The engine compares the lower-cased type.
- **The engine declares `const isSupport` twice in one block** (lib/boosts.js:72 and :91). JavaScript rejects this when parsing. Both declarations compute the same value, so the model has it once.
- **`ability: null,` comes out with two commas in a row.** The generated fields end with `},`, and `ability:\s*null` leaves the field's own comma in place, so the record text gets `},,`. A JavaScript object literal does not allow that (`Patcher.NullThenCommaDoubles`).
- **A stage suffix may have any number of digits.** The `\d{2}` alternative changes nothing about which suffix is taken.

## Model

| member | source | states |
|---|---|---|
| Boosts.RangeForRank | lib/boosts.js:5-39 | A range exists exactly for C/B/A/S/SS/UR (any case) with mode single or both, and for A/S/SS/UR with special. Every range has min 1 and max at most 50. |
| Boosts.RangeProperties | lib/boosts.js:5-39 | The rank's case is ignored. The `both` max never exceeds the `single` max. A rank with a `special` range also has a `both` range. |
| Stages.SuffixAfterUnderscore | lib/boosts.js:46-48 | When everything after an `_` is digits, the stage is their value and the base is the id before the `_`. |
| Stages.NoSuffix | lib/boosts.js:46-48 | An id with no all-digit suffix after an `_` has stage 1 and is its own base. |
| Stages.StageRoundTrip | lib/boosts.js:111-113 | Reading `base_N` back gives stage N and base `base`. |
| Rounding.RoundHalfUpSpec | lib/boosts.js:116-119 | `Math.round` of num/den is the integer nearest to it, with halves rounded up. |
| Boosts.StageValue | lib/boosts.js:115-120 | The stage-aware value: the rounded midpoint for a one-stage lineage, else the rounded interpolation plus one, capped at max. Its properties are `StageValueInRange`, `StageValueAtTop`, `StageValueMonotone` and `StageValueExamples`. |
| Boosts.StageValueExamples | lib/boosts.js:115-120 | Rank A single is [1, 20]. Stage 2 of 4 gives round(10.5) + 1 = 12. A one-stage lineage gives 11 at any stage. |
| Boosts.StageValueInRange | lib/boosts.js:115-120 | For 0 <= stage <= maxStage the stage value lies in [min, max]. |
| Boosts.StageValueAtTop | lib/boosts.js:115-120 | At the top stage of a multi-stage lineage the value is the range's max. |
| Boosts.StageValueMonotone | lib/boosts.js:115-120 | The value never decreases as the stage grows. |
| Boosts.RecordStageStep | lib/boosts.js:44-51 | One step of the index loop only raises entries and records the card's base at no less than its stage. |
| Boosts.MaxStageIndex | lib/boosts.js:42-53 | `maxStageMap` as built from the catalog in order. Its properties are `MaxStageIndexBounds` and `MaxStageIndexAttained`, and `BuildMaxStageMap` builds it. |
| Boosts.MaxStageIndexBounds | lib/boosts.js:42-53 | Every catalog card with a positive stage has its base in the index, at no less than its stage. |
| Boosts.MaxStageIndexAttained | lib/boosts.js:42-53 | Every index entry is positive and is the stage of some catalog card of that base. |
| Boosts.BuildMaxStageMap | lib/boosts.js:42-53 | The loop builds exactly the index function. |
| Boosts.CatalogValueInRange | lib/boosts.js:110-120 | With the index of its own catalog, a card's stage value lies in its range. An absent base counts as 1. |
| Catalog.Lookup | lib/boosts.js:59-60 | The lookup finds a card with the id, or answers none exactly when no card has it. |
| Boosts.Contribution | lib/boosts.js:62-125 | One card's contribution to `computeTeamBoosts`. Its properties are `ExplicitBoostWins`, `PercentRule`, `SupportDefaultRule`, `InferredAgree` and `ContributionBounds`, and `AddCard` computes it. |
| Boosts.InferredTotals | lib/boosts.js:94-125 | The keyword-inferred contribution, with the Support default. Its properties are `InferredBounds` and `InferredAgree`, and `AddInferred` computes it. |
| Boosts.DetailEntry | lib/boosts.js:137-207 | One card's entry in `computeTeamBoostsDetailed`. Its properties are `AggregatorsAgree`, `SupportDefaultRule`, `DetailEntryBounds` and `SupportTextDisagreement`, and `BuildEntry` computes it. |
| Boosts.InferredStats | lib/boosts.js:158-186 | The detailed keyword-inferred stats, without a Support default. Its properties are `InferredStatsBounds` and `InferredAgree`, and `InferEntry` computes them. |
| Boosts.ExplicitBoostWins | lib/boosts.js:63-68 | A non-zero explicit boost is the whole contribution, whatever the text or type. The detailed entry carries the same stats and the reason "explicit boost". |
| Boosts.PercentRule | lib/boosts.js:75-85 | A non-Support card with a percent in its text contributes that number: to ATK if the text names attack or atk, else to both, else to special, else to HP. The detailed entry agrees and carries the reason "ability text". |
| Boosts.AtkAndHpText | lib/boosts.js:76-84 | "Boosts team ATK and HP by 12%" on a non-Support card gives ATK 12 only, in both aggregators. |
| Boosts.SupportDefaultRule | lib/boosts.js:188-206 | A Support card with empty ability text gets the single-range stage value in HP only, or nothing without a range. Its reason is "support default". |
| Boosts.AggregatorsAgree | lib/boosts.js:139-207 | The two aggregators give a card the same stats unless it is a Support card with ability text. |
| Boosts.InferredAgree | lib/boosts.js:94-125 | For a non-Support card with ability text and no percent, both aggregators give the keyword-inferred contribution. |
| Boosts.SupportTextDisagreement | lib/boosts.js:158-182 | A Support card whose text says "Raises attack" gets HP 6 from the totals and ATK 6 from the detailed entry: the aggregators differ. |
| Boosts.EntriesOf | lib/boosts.js:134-137 | An id yields no entry exactly when the lookup does not resolve it. |
| Boosts.RosterConcat | lib/boosts.js:55-128 | The totals and the entries of a roster split in two are those of the halves, combined in order. |
| Boosts.TeamTotalsOrderFree | lib/boosts.js:58-126 | The totals depend only on the multiset of ids, not on their order. |
| Boosts.UnknownIdSkipped | lib/boosts.js:59-60 | An id that no card has changes neither the totals nor the entries. |
| Boosts.OneResolvedId | lib/boosts.js:134-137 | A resolved id contributes exactly its card's contribution and exactly one entry. |
| Boosts.RosterAggregatorsAgree | lib/boosts.js:130-214 | When no roster card is a Support card with ability text, the detailed entries sum to the plain totals. |
| Boosts.InferredBounds | lib/boosts.js:104-125 | A keyword-inferred contribution from a catalog card is between 0 and 50 in each stat. |
| Boosts.InferredStatsBounds | lib/boosts.js:164-185 | The detailed keyword-inferred stats are between 0 and 50 in each stat. |
| Boosts.ContributionBounds | lib/boosts.js:70-125 | Without an explicit boost, a catalog card contributes between 0 and 999 in each stat. |
| Boosts.DetailEntryBounds | lib/boosts.js:144-207 | Without an explicit boost, a catalog card's entry is between 0 and 999 in each stat. |
| Boosts.ComputeTeamBoosts | lib/boosts.js:55-128 | A missing roster gives zero totals. Otherwise the loop returns the sum of the roster's contributions. |
| Boosts.AddCard | lib/boosts.js:62-125 | The loop body adds exactly one card's contribution. |
| Boosts.InferMode | lib/boosts.js:97-102 | The mode is the first keyword found in the order both, attack/atk, special, hp/health. Without a keyword it is single for a Support card and none otherwise. |
| Boosts.AddModeValue | lib/boosts.js:122-125 | `both` adds the value to ATK and HP, `special` to SPECIAL, and `single` to HP or ATK as chosen. Nothing else changes. |
| Boosts.AddInferred | lib/boosts.js:94-125 | The inference part of the body adds exactly the keyword-inferred contribution. |
| Boosts.ComputeTeamBoostsDetailed | lib/boosts.js:130-214 | A missing roster gives zero totals and no entries. Otherwise there is one entry per resolved id, in roster order, and the totals are the entries' sum. |
| Boosts.BuildEntry | lib/boosts.js:137-207 | The entry built by mutating fields is exactly the card's detailed entry. |
| Boosts.InferEntry | lib/boosts.js:158-186 | The inference branch builds the inferred entry, or leaves the blank one when no mode or range is found. |
| Text.Trim | lib/boosts.js:71 | The trimmed text is empty exactly when the text is all whitespace. Otherwise it neither starts nor ends with whitespace. |
| Text.TrimSpec | lib/boosts.js:71 | `trim` removes exactly the leading and the trailing whitespace. The result is a slice of the text, everything outside the slice is whitespace, and a non-empty result starts and ends with a non-whitespace character. |
| Text.IndexOfSpec | scripts/apply_support_boosts.js:42 | `indexOf` returns the first occurrence at or after the start, and -1 exactly when there is none. |
| Text.NatToString | scripts/apply_support_boosts.js:105 | `${n}` is non-empty digits without a leading zero that parse back to n. |
| Text.ParseDigitsBound | lib/boosts.js:76 | A number written with k digits is below 10^k. |
| Patterns.Search | lib/boosts.js:76 | A search returns the leftmost match at or after the start, and none exactly when no position matches. |
| Patterns.PercentOf | lib/boosts.js:76-79 | The percent read from a text is at most 999, and exists exactly when the text has digits followed by `%`. |
| Patterns.Replace | scripts/apply_support_boosts.js:121 | `String.prototype.replace` with a non-global pattern. Its properties are `ReplaceFirstOnly`, `ReplaceNoMatch`, `ReplaceLiteral` and `ReplaceGroupThenLiteral`. |
| Patterns.ReplaceFirstOnly | scripts/apply_support_boosts.js:121 | Only the leftmost match changes. The text before the first position where the pattern matches is kept, and so is the text after that match. The span between them is the expanded replacement, and the length changes accordingly. |
| Patterns.ReplaceNoMatch | scripts/apply_support_boosts.js:141 | Where the pattern matches nowhere, the text comes back as it was. |
| Patterns.ReplaceLiteral | scripts/apply_support_boosts.js:121 | A replacement without `$` is inserted literally in place of the first match. |
| Patterns.InsertAfterImage | scripts/apply_support_boosts.js:141 | `$1` followed by text inserts that text right after the `image` field and keeps the rest. |
| Patterns.LiteralFieldContains | scripts/apply_support_boosts.js:61 | A text that passes the `type: "Support"` test contains `"Support"`. |
| Patcher.PatcherRange | scripts/apply_support_boosts.js:27-37 | The range always exists: min 1, max one of 10/15/20/30/40/50, and [1, 10] for an unknown rank. |
| Patcher.PatcherRangeAgrees | scripts/apply_support_boosts.js:27-37 | The patcher's range is the engine's single range where one exists, else [1, 10]. The rank's case is ignored. |
| Patcher.PatchValue | scripts/apply_support_boosts.js:95-100 | The patcher's value is positive. Its range and top-stage properties are `PatchValueInRange` and `PatchValueAtTop`, and `EngineAddsOne` relates it to the engine's value. |
| Patcher.PatchValueInRange | scripts/apply_support_boosts.js:93-100 | For 0 <= stage <= maxStage the patcher's value lies in [min, max]. |
| Patcher.PatchValueAtTop | scripts/apply_support_boosts.js:96-100 | At the top stage of a multi-stage lineage the patcher's value is max. |
| Patcher.EngineAddsOne | scripts/apply_support_boosts.js:96-100 | For a multi-stage lineage the engine's value is the patcher's value plus one, capped at max. |
| Patcher.ChooseMode | scripts/apply_support_boosts.js:83-90 | HP by default. Attack exactly when the lower-cased text has "attack"; special, then both, only when no earlier keyword is present. |
| Patcher.ReplacementFields | scripts/apply_support_boosts.js:103-116 | The generated `ability` and `boost` fields. Their properties are `NoDollarInFields`, `GeneratedPercentRoundTrip` and `FieldsEndInComma`. |
| Patcher.FieldsEndInComma | scripts/apply_support_boosts.js:103-116 | The generated fields end with a comma. |
| Patcher.PercentBoostLine | scripts/apply_support_boosts.js:129-134 | The `boost` line for a kept percent: attack, then both, then special, else HP. `PercentAbilityKept` states where it goes. |
| Patcher.NoDollarInFields | scripts/apply_support_boosts.js:103-116 | The generated fields hold no `$`, so `replace` inserts them literally. |
| Patcher.GeneratedPercentRoundTrip | scripts/apply_support_boosts.js:103-116 | Reading the percent back from a generated ability text gives the value written, for values up to 999. |
| Patcher.AbilityRawOf | scripts/apply_support_boosts.js:79-80 | The ability text the mode is read from. Its properties are `AbilityRawOfSpec` and `AbilityFieldShape`. |
| Patcher.AbilityRawOfSpec | scripts/apply_support_boosts.js:79-80 | The ability text holds no quote and is empty without an `ability:` field. When it is not empty, it is the quoted text after the first `ability:` of the record and its whitespace. |
| Patterns.AbilityFieldShape | scripts/apply_support_boosts.js:79 | The second group of `ability:\s*("([^"]*)"\|null)` holds no quote. When it is not empty, it is the text between the quotes after `ability:`. |
| Patcher.Rewrite | scripts/apply_support_boosts.js:119-142 | A Support record's new text. Its properties are `NullAbilityReplaced`, `PercentAbilityKept`, `PlainAbilityReplaced`, `FieldsAfterImage` and `NullThenCommaDoubles`. |
| Patcher.PatchRecord | scripts/apply_support_boosts.js:61-68 | A record is rewritten exactly when it holds `type: "Support"`, an `id` field and a `rank` field. Every other record is left alone. |
| Patcher.NullAbilityReplaced | scripts/apply_support_boosts.js:120-121 | `ability: null` is replaced by the generated fields and nothing else changes. |
| Patcher.PercentAbilityKept | scripts/apply_support_boosts.js:122-134 | An ability string holding a percent is kept verbatim, followed by a `boost` line for that percent. Nothing else changes. |
| Patcher.PlainAbilityReplaced | scripts/apply_support_boosts.js:136-137 | A percent-free ability string is replaced by the generated fields and nothing else changes. |
| Patcher.FieldsAfterImage | scripts/apply_support_boosts.js:139-141 | Without an ability field, the generated fields are inserted right after the `image` field. |
| Patcher.NullThenCommaDoubles | scripts/apply_support_boosts.js:119-121 | When `ability: null` is followed by a comma and the inserted fields end with one, the new record text holds `,,`. |
| Patcher.ScanEndSpec | scripts/apply_support_boosts.js:49-57 | Scanning from any point with the depth so far finds the first `}` that brings the depth back to zero, and -1 exactly when there is none. |
| Patcher.RecordEndSpec | scripts/apply_support_boosts.js:44-58 | A record's end is the first `}` at which the depth counted from its `{` returns to zero, and -1 exactly when the text ends first. |
| Patcher.InsideRecord | scripts/apply_support_boosts.js:46-57 | Inside a record found this way the depth is positive everywhere, so the record's braces are balanced. |
| Patcher.FindRecordEnd | scripts/apply_support_boosts.js:46-57 | The depth-counting loop returns exactly the record's end. |
| Patcher.IdMatchesStep | scripts/apply_support_boosts.js:11-19 | Each `exec` of the global id regex moves strictly forward and yields the next id in the text. |
| Patcher.GroupByListed | scripts/apply_support_boosts.js:9-19 | Every id's stage is listed under its base. |
| Patcher.GroupByAttained | scripts/apply_support_boosts.js:9-19 | Every listed stage is the stage of some id of that base. |
| Patcher.SeqMax | scripts/apply_support_boosts.js:23 | `Math.max` of a non-empty list bounds every element and is one of them. |
| Patcher.PatcherStageIndex | scripts/apply_support_boosts.js:8-25 | Every base of an id in the text is indexed at no less than that id's stage, and every entry is the stage of some id of that base. |
| Patcher.CollectStageGroups | scripts/apply_support_boosts.js:8-19 | The `exec` loop builds exactly the groups of all ids in the text. |
| Patcher.MaxPerLineage | scripts/apply_support_boosts.js:21-25 | The second loop maps each base to the maximum of its stages. |
| Patcher.BuildPatcherStageMap | scripts/apply_support_boosts.js:8-25 | The two loops build exactly the stage index of the text. |
| Patcher.MarkerBrace | scripts/apply_support_boosts.js:42-44 | The `{` found after a record marker is the marker's own, three characters in. |
| Patcher.PatchStep | scripts/apply_support_boosts.js:58-68 | A pass keeps the text before the index, never moves the index backwards, and leaves less text ahead. |
| Patcher.SpliceOnlyRecord | scripts/apply_support_boosts.js:145-146 | A pass changes only the record it found. The text before and after it is unchanged, and the search resumes right after the new record text. |
| Patcher.PatchFrom | scripts/apply_support_boosts.js:40-147 | The splice loop from an index on. Its properties are `PatchKeepsPrefix`, `NothingToPatch` and `NoSupportUnchanged`, and `PatchAll` computes it. |
| Patcher.PatchKeepsPrefix | scripts/apply_support_boosts.js:145-146 | The rest of the loop never changes the text before the index it starts from. |
| Patcher.NothingToPatch | scripts/apply_support_boosts.js:61 | If every patched record must contain a literal the file lacks, the loop leaves the file unchanged. |
| Patcher.NoSupportUnchanged | scripts/apply_support_boosts.js:40-147 | A catalog text without `"Support"` is left exactly as it was. |
| Patcher.PatchAll | scripts/apply_support_boosts.js:40-147 | The splice loop computes exactly the loop function over the whole text. |
| Patcher.ApplySupportBoosts | scripts/apply_support_boosts.js:7-147 | The script runs the record-by-record pass over the text with the stage index built from the text as it was read. Which records change, and how, is stated by `PatchRecord`, the three ability lemmas, `FieldsAfterImage` and `PatchStep`. |
| Validator.FindMissing | scripts/list_supports_missing_boosts.js:3-6 | Every listing copies a reported card's fields and carries its own catalog position. Listings are in catalog order. |
| Validator.FindMissingComplete | scripts/list_supports_missing_boosts.js:5 | Every Support card that lacks an ability or a boost is listed. |
| Validator.EmptyReport | scripts/list_supports_missing_boosts.js:8-9 | The report is empty exactly when every Support card has a non-empty ability and a boost. |
| Validator.ReportPrefix | scripts/list_supports_missing_boosts.js:3-6 | Cards appended to the catalog only add listings at the end of the report. |

## Left out

- File reading and writing, and console output. The patcher is a method from the old text to the new. The validator returns its list instead of printing it.
- `randInt` (lib/boosts.js:3). It draws from `Math.random` and nothing calls it.
- `cards.js` and `getCardById` are not part of this model. The catalog is a sequence of card records, and the lookup returns the first card with the id.
- Floating point. `stage / maxStage` and `Math.round` are computed exactly in integers, with halves rounded up. IEEE rounding of the quotient is not modelled.
- Case mapping is ASCII only. JavaScript's `toLowerCase` and `toUpperCase` also map non-ASCII letters.
- Regular expressions in general. Only the patterns the sources use are modelled, each as a hand-written matcher.
- `parseInt` is modelled as exact decimal value. Digit strings too long for a double are not rounded.
- The engine's `maxStageMap` is built once when the module loads. Here it is the `stages` parameter, and the lemmas that need it take the index of the same catalog.
- The patcher's `groups` map keeps `{ id, stage }` pairs. Only the stages are kept here, since only they are read.
- Patcher.PatchValue: its contract states only that the value is positive. Its range and top-stage properties are in `PatchValueInRange` and `PatchValueAtTop`.
- Idempotence of the patcher. It does not hold: a record whose ability holds a percent gains one more `boost:` line on every run.
- A record whose ability text contains `$` and a percent. `replace` would expand `$` patterns inside the kept text; `PercentAbilityKept` excludes such text.
- JavaScript values that are not strings or arrays: a non-string `type`, `ability` or `rank`, a non-array roster other than "missing", or non-number boost fields. Types follow the catalog's records.
