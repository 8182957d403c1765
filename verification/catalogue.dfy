/** Lookups in the flower catalogue. The catalogue's contents are not part
    of this model; every operation takes it as a parameter. */
module Catalogue {
  import opened Wrappers
  import opened FlowerTypes

  /** `k` is the first position of the catalogue holding a flower with this id. */
  ghost predicate IsFirstWithId(catalogue: seq<Flower>, id: string, k: int) {
    && 0 <= k < |catalogue|
    && catalogue[k].id == id
    && forall j :: 0 <= j < k ==> catalogue[j].id != id
  }

  ghost predicate HasFlower(catalogue: seq<Flower>, id: string) {
    exists k :: 0 <= k < |catalogue| && catalogue[k].id == id
  }

  /** The position of the flower `flowers.find(f => f.id === id)` returns:
      the first one carrying the id, or `None` when no flower does. */
  function FindIndex(catalogue: seq<Flower>, id: string): (r: Option<nat>)
    ensures r.Some? ==> IsFirstWithId(catalogue, id, r.value)
    ensures r.None? ==> !HasFlower(catalogue, id)
  {
    if |catalogue| == 0 then None
    else if catalogue[0].id == id then Some(0)
    else
      assert forall k :: 1 <= k < |catalogue| ==> catalogue[k] == catalogue[1..][k - 1];
      match FindIndex(catalogue[1..], id)
      case None => None
      case Some(k) => Some(k + 1)
  }

  /** `flowers.find(f => f.id === id)`: the first flower with that id, if any. */
  function FindFlower(catalogue: seq<Flower>, id: string): (r: Option<Flower>)
    ensures r.None? <==> !HasFlower(catalogue, id)
    ensures r.Some? ==> exists k :: IsFirstWithId(catalogue, id, k) && catalogue[k] == r.value
  {
    match FindIndex(catalogue, id)
    case None => None
    case Some(k) => Some(catalogue[k])
  }

  /** The flower found carries the requested id. */
  lemma FoundFlowerHasId(catalogue: seq<Flower>, id: string)
    ensures FindFlower(catalogue, id).Some? ==>
      FindFlower(catalogue, id).value in catalogue && FindFlower(catalogue, id).value.id == id
  {
  }

  /** Dangling references are representable: whatever the catalogue, some
      flower id resolves to nothing. */
  lemma DanglingReferenceExists(catalogue: seq<Flower>)
    ensures exists id :: FindFlower(catalogue, id).None?
  {
    var id := LongerThanAll(catalogue);
    assert FindFlower(catalogue, id).None?;
  }

  /** A string longer than every flower id of the catalogue. */
  function LongerThanAll(catalogue: seq<Flower>): (id: string)
    ensures forall k :: 0 <= k < |catalogue| ==> |catalogue[k].id| < |id|
  {
    if |catalogue| == 0 then "?"
    else
      var rest := LongerThanAll(catalogue[1..]);
      assert forall k :: 1 <= k < |catalogue| ==> catalogue[k] == catalogue[1..][k - 1];
      catalogue[0].id + rest
  }

}
