/** The revealing-module pattern `ItemCtrl` of appes6.js and app.js (the two
    files hold the same code): a private list `_data` of items with `add`,
    which pushes onto it, and `get`, which looks an item up by its `id` with
    `Array.prototype.find`. */
module RevealingModule {
  import opened Wrappers

  /** A stored record; `get` looks only at `id`. */
  datatype Item = Item(id: int, name: string)

  /** `k` is the first position of `s` whose item carries `id`. */
  ghost predicate IsFirstMatch(s: seq<Item>, id: int, k: int)
  {
    0 <= k < |s| && s[k].id == id && forall j :: 0 <= j < k ==> s[j].id != id
  }

  /** `Array.prototype.find` with the predicate `item.id === id`: the first
      item carrying `id`, or nothing (JavaScript's `undefined`) when no item
      does. */
  function Find(s: seq<Item>, id: int): (r: Option<Item>)
    ensures r.None? <==> forall i :: 0 <= i < |s| ==> s[i].id != id
    ensures r.Some? ==> exists k :: IsFirstMatch(s, id, k) && s[k] == r.value
  {
    if s == [] then None
    else if s[0].id == id then
      assert IsFirstMatch(s, id, 0);
      Some(s[0])
    else Find(s[1..], id)
  }

  /** Appending never hides an earlier match, and the appended item is found
      exactly when nothing before it carries the same `id`. */
  lemma {:induction false} FindAfterAppend(s: seq<Item>, x: Item, id: int)
    ensures Find(s + [x], id) ==
      if Find(s, id).Some? then Find(s, id)
      else if x.id == id then Some(x)
      else None
  {
    if s != [] {
      assert (s + [x])[1..] == s[1..] + [x];
      FindAfterAppend(s[1..], x, id);
    }
  }

  /** Storage order decides: of two items with the same `id`, the one stored
      first is the one found. */
  lemma {:induction false} FindPrefers(s: seq<Item>, t: seq<Item>, id: int)
    requires Find(s, id).Some?
    ensures Find(s + t, id) == Find(s, id)
  {
    if s[0].id != id {
      assert (s + t)[1..] == s[1..] + t;
      FindPrefers(s[1..], t, id);
    }
  }

  class ItemCtrl {
    /** `_data`: the items in the order they were added. */
    var data: seq<Item>

    constructor ()
      ensures data == []
    {
      data := [];
    }

    /** `add`: push `item` at the end; the items already stored keep their
        values and positions. */
    method Add(item: Item)
      modifies this
      ensures data == old(data) + [item]
      ensures |data| == |old(data)| + 1
      ensures forall i :: 0 <= i < |old(data)| ==> data[i] == old(data)[i]
    {
      data := data + [item];
    }

    /** `get`: the first stored item whose `id` is `id`, or nothing when no
        stored item has it. Being a function, it leaves `_data` as it is. */
    function Get(id: int): (r: Option<Item>)
      reads this
      ensures r.None? <==> forall i :: 0 <= i < |data| ==> data[i].id != id
      ensures r.Some? ==> r.value in data && r.value.id == id
      ensures r.Some? ==> exists k :: IsFirstMatch(data, id, k) && data[k] == r.value
    {
      Find(data, id)
    }
  }

  /** The module's own demonstration: after adding `{id: 1, name: 'John'}`
      to an empty store, `get(1)` returns that item. */
  method AddThenGet() returns (r: Option<Item>)
    ensures r == Some(Item(1, "John"))
  {
    var ctrl := new ItemCtrl();
    ctrl.Add(Item(1, "John"));
    r := ctrl.Get(1);
  }
}
