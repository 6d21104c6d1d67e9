/**
 * The stage suffix of a card id (`nojiko_03` is stage 3 of lineage
 * `nojiko`). Both scripts read it with `/_(\d{2})$/ || /_(\d+)$/` and strip
 * it with `/_(?:\d{2}|\d+)$/`; since a digit is never `_`, all three
 * patterns can only match at the `_` that opens the maximal run of
 * trailing digits, so they agree on where the suffix starts.
 */
module Stages {
  import opened Optional
  import opened Text

  /** Length of the run of digits that ends `s`. */
  function TrailingDigits(s: string): (k: nat)
    ensures k <= |s|
    ensures forall i :: |s| - k <= i < |s| ==> IsDigit(s[i])
    ensures k < |s| ==> !IsDigit(s[|s| - k - 1])
  {
    if s == [] || !IsDigit(s[|s| - 1]) then 0 else TrailingDigits(s[..|s| - 1]) + 1
  }

  /** Position of the `_` that opens a `_<digits>` suffix at the end of `id`, if there is one. */
  function SuffixStart(id: string): (r: Option<nat>)
    ensures r.Some? ==> r.value + 1 < |id| && id[r.value] == '_' && AllDigits(id[r.value + 1..])
  {
    var k := TrailingDigits(id);
    if 0 < k < |id| && id[|id| - k - 1] == '_' then Some(|id| - k - 1) else None
  }

  /** The stage: the number after the suffix's `_`, or 1 when there is no suffix. */
  function StageOf(id: string): nat {
    match SuffixStart(id)
    case Some(p) => ParseDigits(id[p + 1..])
    case None => 1
  }

  /** The lineage (base) id: `id` without its stage suffix. */
  function BaseOf(id: string): (b: string)
    ensures |b| <= |id| && b == id[..|b|]
  {
    match SuffixStart(id)
    case Some(p) => id[..p]
    case None => id
  }

  /** When everything after some `_` is digits, that `_` opens the suffix: the stage is those digits and the base is what precedes it. */
  lemma SuffixAfterUnderscore(id: string, p: nat)
    requires p + 1 < |id| && id[p] == '_' && AllDigits(id[p + 1..])
    ensures SuffixStart(id) == Some(p)
    ensures StageOf(id) == ParseDigits(id[p + 1..])
    ensures BaseOf(id) == id[..p]
  {
    var k := TrailingDigits(id);
    assert forall i :: p < i < |id| ==> IsDigit(id[i]) by {
      forall i | p < i < |id| ensures IsDigit(id[i]) {
        assert id[p + 1..][i - p - 1] == id[i];
      }
    }
    assert k == |id| - p - 1;
  }

  /** Without such an `_` the id has stage 1 and is its own base. */
  lemma NoSuffix(id: string)
    requires forall p :: 0 <= p < |id| - 1 && id[p] == '_' ==> !AllDigits(id[p + 1..])
    ensures StageOf(id) == 1 && BaseOf(id) == id
  {
  }

  /** Writing a stage after a base and reading it back gives the same stage and base. */
  lemma StageRoundTrip(base: string, n: nat)
    ensures StageOf(base + "_" + NatToString(n)) == n
    ensures BaseOf(base + "_" + NatToString(n)) == base
  {
    var id := base + "_" + NatToString(n);
    assert id[|base| + 1..] == NatToString(n);
    assert id[..|base|] == base;
    SuffixAfterUnderscore(id, |base|);
  }
}
