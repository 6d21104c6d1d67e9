/**
 * The card catalog as the engine and the validator see it once loaded:
 * an ordered sequence of records. The catalog file itself and the lookup
 * that resolves an id are outside this model; the lookup is taken to return
 * the first record with that id.
 */
module Catalog {
  import opened Optional

  /** A `boost` object; a sub-field that is absent reads as 0. */
  datatype BoostField = BoostField(atk: int, hp: int, special: int)

  /**
   * A card record. A missing `rank` or `type` is the empty string; `ability`
   * and `boost` keep the difference between absent and present.
   */
  datatype Card = Card(
    id: string,
    name: string,
    rank: string,
    cardType: string,
    ability: Option<string>,
    boost: Option<BoostField>)

  /** Position of the first record at or after `from` whose id is `id`, or -1. */
  function FirstWithId(catalog: seq<Card>, id: string, from: nat): (i: int)
    decreases |catalog| - from
    ensures i == -1 || (from <= i < |catalog| && catalog[i].id == id)
    ensures i == -1 ==> forall j :: from <= j < |catalog| ==> catalog[j].id != id
    ensures i >= 0 ==> forall j :: from <= j < i ==> catalog[j].id != id
  {
    if from >= |catalog| then -1
    else if catalog[from].id == id then from
    else FirstWithId(catalog, id, from + 1)
  }

  /** `getCardById`: the first record whose id is `id`, or none. */
  function Lookup(catalog: seq<Card>, id: string): (r: Option<Card>)
    ensures r.Some? ==> r.value in catalog && r.value.id == id
    ensures r.None? <==> forall i :: 0 <= i < |catalog| ==> catalog[i].id != id
  {
    var i := FirstWithId(catalog, id, 0);
    if i < 0 then None else Some(catalog[i])
  }
}
