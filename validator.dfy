/**
 * The catalog validator (scripts/list_supports_missing_boosts.js): it lists
 * every Support card whose ability text or `boost` object is missing, with
 * its position in the catalog. Printing the list is outside this model.
 */
module Validator {
  import opened Optional
  import opened Catalog

  /** One line of the report: the card's id, rank, ability, boost and position. */
  datatype Listing = Listing(id: string, rank: string, ability: Option<string>, boost: Option<BoostField>, index: nat)

  /**
   * A card the validator reports: typed exactly `Support` (case matters)
   * with an ability that is absent or empty, or with no `boost` object.
   */
  predicate MissingFields(c: Card) {
    c.cardType == "Support" && (c.ability.None? || c.ability == Some("") || c.boost.None?)
  }

  function ListingOf(c: Card, index: nat): Listing {
    Listing(c.id, c.rank, c.ability, c.boost, index)
  }

  /**
   * The report: one listing per reported card, in catalog order. Every
   * listing names a reported card at its own position, and every reported
   * card is listed.
   */
  function FindMissing(cards: seq<Card>): (r: seq<Listing>)
    ensures forall k :: 0 <= k < |r| ==>
      r[k].index < |cards| && MissingFields(cards[r[k].index]) && r[k] == ListingOf(cards[r[k].index], r[k].index)
    ensures forall k, l :: 0 <= k < l < |r| ==> r[k].index < r[l].index
  {
    if cards == [] then []
    else
      var n := |cards| - 1;
      var front := FindMissing(cards[..n]);
      assert forall i :: 0 <= i < n ==> cards[..n][i] == cards[i];
      var r := front + (if MissingFields(cards[n]) then [ListingOf(cards[n], n)] else []);
      assert forall k :: 0 <= k < |front| ==> r[k] == front[k];
      r
  }

  /** Every reported card is listed: `k` is its listing. */
  lemma {:induction false} FindMissingComplete(cards: seq<Card>, i: nat) returns (k: nat)
    requires i < |cards| && MissingFields(cards[i])
    ensures k < |FindMissing(cards)| && FindMissing(cards)[k].index == i
  {
    var n := |cards| - 1;
    if i < n {
      assert cards[..n][i] == cards[i];
      k := FindMissingComplete(cards[..n], i);
      assert FindMissing(cards)[k] == FindMissing(cards[..n])[k] by {
        var front := FindMissing(cards[..n]);
        assert FindMissing(cards) == front + (if MissingFields(cards[n]) then [ListingOf(cards[n], n)] else []);
      }
    } else {
      var front := FindMissing(cards[..n]);
      assert FindMissing(cards) == front + [ListingOf(cards[n], n)];
      k := |front|;
    }
  }

  /** The report is empty exactly when every Support card has a non-empty ability and a `boost` object. */
  lemma EmptyReport(cards: seq<Card>)
    ensures FindMissing(cards) == [] <==>
      forall i :: 0 <= i < |cards| && cards[i].cardType == "Support" ==>
        cards[i].ability.Some? && cards[i].ability.value != [] && cards[i].boost.Some?
  {
    var r := FindMissing(cards);
    if r != [] {
      assert MissingFields(cards[r[0].index]);
    } else {
      forall i | 0 <= i < |cards| && MissingFields(cards[i]) ensures false {
        var k := FindMissingComplete(cards, i);
      }
    }
  }

  /** Adding cards at the end of the catalog only adds listings at the end of the report. */
  lemma {:induction false} ReportPrefix(cards: seq<Card>, more: seq<Card>)
    ensures |FindMissing(cards)| <= |FindMissing(cards + more)|
    ensures FindMissing(cards + more)[..|FindMissing(cards)|] == FindMissing(cards)
    decreases |more|
  {
    if more != [] {
      var all := cards + more;
      var n := |more| - 1;
      assert all[..|all| - 1] == cards + more[..n];
      ReportPrefix(cards, more[..n]);
      var mid := FindMissing(cards + more[..n]);
      var last := all[|all| - 1];
      var t := if MissingFields(last) then [ListingOf(last, |all| - 1)] else [];
      assert FindMissing(all) == mid + t;
      var m := |FindMissing(cards)|;
      assert (mid + t)[..m] == mid[..m];
    } else {
      assert cards + more == cards;
    }
  }
}
