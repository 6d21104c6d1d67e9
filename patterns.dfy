/**
 * The regular expressions the engine and the catalog patcher use, each
 * written out as a matcher at one position, a leftmost search, and
 * `String.prototype.replace` with a regular expression (first match only,
 * with the `$` patterns of the replacement string expanded).
 */
module Patterns {
  import opened Optional
  import opened Text

  /** The character classes that occur inside the patterns. */
  datatype CharClass =
    | IdChar    // [A-Za-z0-9_]
    | RankChar  // [A-Za-z0-9]
    | NonQuote  // [^"]
    | Digit     // \d

  predicate InClass(c: char, cls: CharClass) {
    match cls
    case IdChar => ('a' <= c <= 'z') || ('A' <= c <= 'Z') || IsDigit(c) || c == '_'
    case RankChar => ('a' <= c <= 'z') || ('A' <= c <= 'Z') || IsDigit(c)
    case NonQuote => c != '"'
    case Digit => IsDigit(c)
  }

  /** The shapes of regular expression that occur in the source. */
  datatype Pattern =
      /** key\s*"(cls+)" when `nonEmpty`, key\s*"(cls*)" otherwise; one capture group. */
    | FieldString(key: string, cls: CharClass, nonEmpty: bool)
      /** key\s*lit, no capture group. */
    | FieldLiteral(key: string, lit: string)
      /** ability:\s*("([^"]*)"|null), two capture groups. */
    | AbilityField
      /** (image:\s*"[^"]*",), one capture group holding the whole match. */
    | ImageField
      /** (\d{1,3})\s*%, one capture group. */
    | PercentToken

  const IdPattern := FieldString("id:", IdChar, true)                 // id:\s*"([A-Za-z0-9_]+)"
  const RankPattern := FieldString("rank:", RankChar, true)           // rank:\s*"([A-Za-z0-9]+)"
  const AbilityStringPattern := FieldString("ability:", NonQuote, false)  // ability:\s*"([^"]*)"
  const AbilityNullPattern := FieldLiteral("ability:", "null")        // ability:\s*null
  const SupportTypePattern := FieldLiteral("type:", "\"Support\"")    // type:\s*"Support"

  /**
   * A match: it covers `s[start..stop]`; `groups[k]` is capture group k+1
   * (a group that did not take part is the empty string, as `m[2] || ''` and
   * `replace` both read it).
   */
  datatype Found = Found(start: nat, stop: nat, groups: seq<string>)

  predicate HasAt(s: string, i: nat, lit: string) {
    i + |lit| <= |s| && s[i..i + |lit|] == lit
  }

  /** End of the run of `cls` characters that starts at `i`. */
  function SpanOf(s: string, i: nat, cls: CharClass): (e: nat)
    requires i <= |s|
    decreases |s| - i
    ensures i <= e <= |s|
    ensures e < |s| ==> !InClass(s[e], cls)
    ensures forall k :: i <= k < e ==> InClass(s[k], cls)
  {
    if i == |s| || !InClass(s[i], cls) then i else SpanOf(s, i + 1, cls)
  }

  /** The number of capture groups the pattern declares. */
  function GroupCount(p: Pattern): nat {
    match p
    case FieldString(_, _, _) => 1
    case FieldLiteral(_, _) => 0
    case AbilityField => 2
    case ImageField => 1
    case PercentToken => 1
  }

  /**
   * Whether `p` matches at position `i` of `s`. Each pattern is matched
   * the way a backtracking engine would: `\s*` is greedy and cannot give
   * characters back usefully, because the next token never begins with
   * whitespace; a class run is greedy and must be followed by a quote.
   */
  function MatchAt(p: Pattern, s: string, i: nat): (r: Option<Found>)
    ensures r.Some? ==> r.value.start == i < r.value.stop <= |s|
    ensures r.Some? ==> |r.value.groups| == GroupCount(p)
  {
    if i >= |s| then None
    else
      match p
      case FieldString(key, cls, nonEmpty) =>
        if !HasAt(s, i, key) then None
        else
          var q := SkipSpaces(s, i + |key|);
          if !(q < |s| && s[q] == '"') then None
          else
            var e := SpanOf(s, q + 1, cls);
            if (nonEmpty && e == q + 1) || !(e < |s| && s[e] == '"') then None
            else Some(Found(i, e + 1, [s[q + 1..e]]))
      case FieldLiteral(key, lit) =>
        if !HasAt(s, i, key) then None
        else
          var q := SkipSpaces(s, i + |key|);
          if HasAt(s, q, lit) && q + |lit| > i then Some(Found(i, q + |lit|, [])) else None
      case AbilityField =>
        if !HasAt(s, i, "ability:") then None
        else
          var q := SkipSpaces(s, i + 8);
          var e := if q < |s| && s[q] == '"' then SpanOf(s, q + 1, NonQuote) else |s|;
          if q < |s| && s[q] == '"' && e < |s| then Some(Found(i, e + 1, [s[q..e + 1], s[q + 1..e]]))
          else if HasAt(s, q, "null") then Some(Found(i, q + 4, ["null", ""]))
          else None
      case ImageField =>
        if !HasAt(s, i, "image:") then None
        else
          var q := SkipSpaces(s, i + 6);
          if !(q < |s| && s[q] == '"') then None
          else
            var e := SpanOf(s, q + 1, NonQuote);
            if e + 1 < |s| && s[e + 1] == ',' then Some(Found(i, e + 2, [s[i..e + 2]])) else None
      case PercentToken =>
        var e := SpanOf(s, i, Digit);
        if e == i || e - i > 3 then None
        else
          var q := SkipSpaces(s, e);
          if q < |s| && s[q] == '%' then Some(Found(i, q + 1, [s[i..e]])) else None
  }

  /** `s.match(p)` searched from `from`: the leftmost match starting at or after `from`. */
  function Search(p: Pattern, s: string, from: nat): (r: Option<Found>)
    decreases |s| - from
    ensures r.Some? ==> from <= r.value.start && MatchAt(p, s, r.value.start) == r
    ensures r.Some? ==> forall k :: from <= k < r.value.start ==> MatchAt(p, s, k).None?
    ensures r.None? ==> forall k :: from <= k ==> MatchAt(p, s, k).None?
  {
    if from >= |s| then None
    else if MatchAt(p, s, from).Some? then MatchAt(p, s, from)
    else Search(p, s, from + 1)
  }

  /** Positions where `p` cannot match may be skipped before searching. */
  lemma {:induction false} SearchSkips(p: Pattern, s: string, from: nat, to: nat)
    requires from <= to && forall k :: from <= k < to ==> MatchAt(p, s, k).None?
    ensures Search(p, s, from) == Search(p, s, to)
    decreases (to as int) - (from as int)
  {
    if from < to && from < |s| {
      SearchSkips(p, s, from + 1, to);
    }
  }

  /** `(\d{1,3})\s*%` can only match where a digit stands. */
  lemma PercentNeedsDigit(s: string, from: nat, to: nat)
    requires from <= to && forall k :: from <= k < to && k < |s| ==> !IsDigit(s[k])
    ensures Search(PercentToken, s, from) == Search(PercentToken, s, to)
  {
    forall k | from <= k < to ensures MatchAt(PercentToken, s, k).None? {
      if k < |s| {
        assert SpanOf(s, k, Digit) == k;
      }
    }
    SearchSkips(PercentToken, s, from, to);
  }

  /** The end of a run of class characters is where the first non-class character stands. */
  lemma {:induction false} SpanOfRun(s: string, i: nat, j: nat, cls: CharClass)
    requires i <= j <= |s|
    requires forall k :: i <= k < j ==> InClass(s[k], cls)
    requires j == |s| || !InClass(s[j], cls)
    ensures SpanOf(s, i, cls) == j
    decreases j - i
  {
    if i < j {
      SpanOfRun(s, i + 1, j, cls);
    }
  }

  /** One to three digits directly followed by `%` are a percent token. */
  lemma PercentTokenAt(s: string, i: nat, j: nat)
    requires i < j <= i + 3 && j < |s| && s[j] == '%'
    requires forall k :: i <= k < j ==> IsDigit(s[k])
    ensures MatchAt(PercentToken, s, i) == Some(Found(i, j + 1, [s[i..j]]))
  {
    SpanOfRun(s, i, j, Digit);
    assert SkipSpaces(s, j) == j;
  }

  /** A field-literal pattern matches only where its literal occurs. */
  lemma LiteralFieldContains(key: string, lit: string, s: string)
    requires Test(FieldLiteral(key, lit), s)
    ensures Contains(s, lit)
  {
    var f := Search(FieldLiteral(key, lit), s, 0).value;
    var q := SkipSpaces(s, f.start + |key|);
    assert HasAt(s, q, lit);
    assert OccursAt(s, lit, q);
  }

  /** `p.test(s)`. */
  predicate Test(p: Pattern, s: string) {
    Search(p, s, 0).Some?
  }

  /**
   * The replacement text `t` with its `$` patterns expanded, as
   * GetSubstitution in ECMAScript defines them: `$$`, `` $` ``, `$&`, `$'`,
   * and `$n`/`$nn` for a capture group that exists; any other `$` is literal.
   */
  function Expand(t: string, s: string, f: Found): string
    requires f.start <= f.stop <= |s|
    decreases |t|
  {
    if t == [] then []
    else if t[0] != '$' || |t| == 1 then [t[0]] + Expand(t[1..], s, f)
    else
      var c := t[1];
      if c == '$' then "$" + Expand(t[2..], s, f)
      else if c == '`' then s[..f.start] + Expand(t[2..], s, f)
      else if c == '&' then s[f.start..f.stop] + Expand(t[2..], s, f)
      else if c == '\'' then s[f.stop..] + Expand(t[2..], s, f)
      else if IsDigit(c) && |t| >= 3 && IsDigit(t[2])
              && 1 <= 10 * DigitValue(c) + DigitValue(t[2]) <= |f.groups| then
        f.groups[10 * DigitValue(c) + DigitValue(t[2]) - 1] + Expand(t[3..], s, f)
      else if IsDigit(c) && 1 <= DigitValue(c) <= |f.groups| then
        f.groups[DigitValue(c) - 1] + Expand(t[2..], s, f)
      else "$" + Expand(t[1..], s, f)
  }

  /** A replacement text without `$` is inserted as it is. */
  lemma {:induction false} ExpandLiteral(t: string, s: string, f: Found)
    requires f.start <= f.stop <= |s|
    requires '$' !in t
    ensures Expand(t, s, f) == t
  {
    if t != [] {
      assert '$' !in t[1..];
      ExpandLiteral(t[1..], s, f);
    }
  }

  /** One step of the expansion: a `$n` naming an existing group, not followed by another digit, inserts that group. */
  lemma ExpandGroupStep(u: string, s: string, f: Found)
    requires f.start <= f.stop <= |s|
    requires |u| >= 2 && u[0] == '$' && IsDigit(u[1]) && 1 <= DigitValue(u[1]) <= |f.groups|
    requires |u| == 2 || !IsDigit(u[2])
    ensures Expand(u, s, f) == f.groups[DigitValue(u[1]) - 1] + Expand(u[2..], s, f)
  {
  }

  /** `$1` followed by literal text inserts the first capture group before that text. */
  lemma GroupThenLiteral(t: string, s: string, f: Found)
    requires f.start <= f.stop <= |s| && |f.groups| == 1
    requires '$' !in t && (t == [] || !IsDigit(t[0]))
    ensures Expand("$1" + t, s, f) == f.groups[0] + t
  {
    var u := "$1" + t;
    assert u[2..] == t;
    ExpandGroupStep(u, s, f);
    ExpandLiteral(t, s, f);
  }

  /**
   * `s.replace(p, t)`: the first match, if any, is replaced by the
   * expansion of `t`; everything before and after it is kept.
   */
  function Replace(p: Pattern, s: string, t: string): string {
    match Search(p, s, 0)
    case None => s
    case Some(f) => s[..f.start] + Expand(t, s, f) + s[f.stop..]
  }

  /**
   * `replace` changes only the leftmost match: a text where `p` matches
   * nowhere comes back as it was; otherwise the text before the first
   * position where `p` matches and the text after that match are kept,
   * and the span between them is the expansion of `t`.
   */
  lemma ReplaceFirstOnly(p: Pattern, s: string, t: string, a: nat)
    requires a <= |s| && MatchAt(p, s, a).Some?
    requires forall k :: 0 <= k < a ==> MatchAt(p, s, k).None?
    ensures var f := MatchAt(p, s, a).value;
      var r := Replace(p, s, t);
      var e := Expand(t, s, f);
      |r| == |s| - (f.stop - a) + |e| &&
      r[..a] == s[..a] && r[a..a + |e|] == e && r[a + |e|..] == s[f.stop..]
  {
    SearchSkips(p, s, 0, a);
    var f := MatchAt(p, s, a).value;
    var e := Expand(t, s, f);
    var r := Replace(p, s, t);
    assert r == s[..a] + e + s[f.stop..];
  }

  /** Where `p` matches nowhere, `replace` leaves the text as it was. */
  lemma ReplaceNoMatch(p: Pattern, s: string, t: string)
    requires forall k :: 0 <= k ==> MatchAt(p, s, k).None?
    ensures Replace(p, s, t) == s
  {
  }

  /** `replace` with a text that holds no `$` puts that text in place of the first match. */
  lemma ReplaceLiteral(p: Pattern, s: string, t: string)
    requires Search(p, s, 0).Some? && '$' !in t
    ensures var f := Search(p, s, 0).value;
      Replace(p, s, t) == s[..f.start] + t + s[f.stop..]
  {
    ExpandLiteral(t, s, Search(p, s, 0).value);
  }

  /** `replace` with `$1` followed by literal text puts the first group and that text in place of the first match. */
  lemma ReplaceGroupThenLiteral(p: Pattern, s: string, t: string)
    requires Search(p, s, 0).Some? && GroupCount(p) == 1
    requires '$' !in t && (t == [] || !IsDigit(t[0]))
    ensures var f := Search(p, s, 0).value;
      Replace(p, s, "$1" + t) == s[..f.start] + (f.groups[0] + t) + s[f.stop..]
  {
    GroupThenLiteral(t, s, Search(p, s, 0).value);
  }

  /**
   * The second group of `ability:\s*("([^"]*)"|null)` holds no quote, and
   * when it is not empty it is the text between the quotes that follow
   * `ability:` and its whitespace, starting at `q`.
   */
  lemma AbilityFieldShape(s: string, i: nat) returns (q: nat)
    requires MatchAt(AbilityField, s, i).Some?
    ensures var g := MatchAt(AbilityField, s, i).value.groups[1];
      '"' !in g &&
      (g != [] ==>
        i + 8 <= q && q + |g| + 2 <= |s| && HasAt(s, i, "ability:") &&
        (forall k :: i + 8 <= k < q ==> IsSpace(s[k])) &&
        s[q..q + |g| + 2] == "\"" + g + "\"")
  {
    q := SkipSpaces(s, i + 8);
    var g := MatchAt(AbilityField, s, i).value.groups[1];
    assert HasAt(s, i, "ability:");
    if q < |s| && s[q] == '"' && SpanOf(s, q + 1, NonQuote) < |s| {
      var e := SpanOf(s, q + 1, NonQuote);
      assert g == s[q + 1..e];
      QuotedSlice(s, q, e);
    } else {
      assert g == [];
    }
  }

  /** A run of non-quote characters between two quotes is that text, quoted. */
  lemma QuotedSlice(s: string, q: nat, e: nat)
    requires q < e < |s| && s[q] == '"' && s[e] == '"'
    requires forall k :: q < k < e ==> s[k] != '"'
    ensures '"' !in s[q + 1..e]
    ensures s[q..e + 1] == "\"" + s[q + 1..e] + "\""
  {
    assert s[q..e + 1] == [s[q]] + s[q + 1..e] + [s[e]];
  }

  /** The one group of `(image:\s*"[^"]*",)` is the whole match. */
  lemma ImageGroupIsMatch(s: string, i: nat)
    requires MatchAt(ImageField, s, i).Some?
    ensures MatchAt(ImageField, s, i).value.groups == [s[i..MatchAt(ImageField, s, i).value.stop]]
  {
  }

  /** `replace` on `(image:\s*"[^"]*",)` with `$1` and literal text inserts that text right after the match. */
  lemma InsertAfterImage(s: string, t: string)
    requires Search(ImageField, s, 0).Some?
    requires '$' !in t && (t == [] || !IsDigit(t[0]))
    ensures var f := Search(ImageField, s, 0).value;
      Replace(ImageField, s, "$1" + t) == s[..f.stop] + t + s[f.stop..]
  {
    var f := Search(ImageField, s, 0).value;
    assert f.groups[0] == s[f.start..f.stop] by {
      ImageGroupIsMatch(s, f.start);
    }
    ReplaceGroupThenLiteral(ImageField, s, t);
    SpliceAfter(s, f.start, f.stop, t);
  }

  /** Putting `t` after the slice `s[a..b]` in place of it is putting `t` at `b`. */
  lemma SpliceAfter(s: string, a: nat, b: nat, t: string)
    requires a <= b <= |s|
    ensures s[..a] + (s[a..b] + t) + s[b..] == s[..b] + t + s[b..]
  {
    assert s[..a] + s[a..b] == s[..b];
  }

  /** The number captured by the leftmost `(\d{1,3})\s*%` in `s`, if there is one. */
  function PercentOf(s: string): (r: Option<nat>)
    ensures r.Some? ==> r.value <= 999
    ensures r.Some? <==> Search(PercentToken, s, 0).Some?
  {
    match Search(PercentToken, s, 0)
    case None => None
    case Some(f) =>
      var digits := f.groups[0];
      assert AllDigits(digits) && |digits| <= 3;
      ParseDigitsBound(digits);
      Some(ParseDigits(digits))
  }
}
