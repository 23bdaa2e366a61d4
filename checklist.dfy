/** The shape shared by the three checklist engines (past, financial
    health, future): a fixed list of keyed items, each passing or not, and
    a score counting the passing ones. */
module Checklist {
  import opened Common

  /** `{ key, label, pass, detail }`; the detail text is not modelled. */
  datatype Item<K> = Item(key: K, title: string, pass: bool)

  predicate Passes<K>(it: Item<K>)
  {
    it.pass
  }

  /** `items.reduce((s, it) => s + (it.pass ? 1 : 0), 0)`. */
  function Score<K>(items: seq<Item<K>>): (r: nat)
    ensures r <= |items|
  {
    if items == [] then 0
    else Score(items[..|items| - 1]) + (if items[|items| - 1].pass then 1 else 0)
  }

  /** The score is the number of passing items. */
  lemma {:induction false} ScoreCountsPasses<K>(items: seq<Item<K>>)
    ensures Score(items) == Count(items, Passes)
  {
    if items != [] {
      var init := items[..|items| - 1];
      assert items == init + [items[|items| - 1]];
      ScoreCountsPasses(init);
      FilterAppend(init, [items[|items| - 1]], Passes);
    }
  }

  /** The score is full exactly when every item passes, and zero exactly
      when none does. */
  lemma {:induction false} ScoreExtremes<K>(items: seq<Item<K>>)
    ensures Score(items) == |items| <==> forall i :: 0 <= i < |items| ==> items[i].pass
    ensures Score(items) == 0 <==> forall i :: 0 <= i < |items| ==> !items[i].pass
  {
    if items != [] {
      var init := items[..|items| - 1];
      ScoreExtremes(init);
      assert forall i :: 0 <= i < |init| ==> init[i] == items[i];
    }
  }
}
