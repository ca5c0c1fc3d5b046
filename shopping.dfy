/** The shopping list page: items are put in front, toggled and deleted by id, and the
    header shows how many items are still open. */
module Shopping {
  import opened Basics
  import Text
  import Seqs

  datatype Item = Item(id: string, text: string, completed: bool)

  /** The three items the page starts with; the bread is already bought. */
  const InitialItems: seq<Item> := [
    Item("1", "Milk", false),
    Item("2", "Eggs", false),
    Item("3", "Bread", true)
  ]

  /** The item `addItem` puts in front, or `None` when the input is blank after trimming. */
  function NewItem(input: string, id: string): (r: Option<Item>)
    ensures r.None? <==> forall i :: 0 <= i < |input| ==> Text.IsSpace(input[i])
    ensures r.Some? ==> r.value == Item(id, Text.Trim(input), false) && r.value.text != []
  {
    Text.TrimEmptyIff(input);
    if Text.Trim(input) == [] then None else Some(Item(id, Text.Trim(input), false))
  }

  /** `items.map(item => item.id === id ? { ...item, completed: !item.completed } : item)`. */
  function Toggled(items: seq<Item>, id: string): (r: seq<Item>)
    ensures |r| == |items|
    ensures forall i :: 0 <= i < |items| && items[i].id == id ==> r[i] == items[i].(completed := !items[i].completed)
    ensures forall i :: 0 <= i < |items| && items[i].id != id ==> r[i] == items[i]
  {
    if items == [] then []
    else
      [if items[0].id == id then items[0].(completed := !items[0].completed) else items[0]]
      + Toggled(items[1..], id)
  }

  /** Toggling the same id twice gives the list back. */
  lemma {:induction false} ToggleTwice(items: seq<Item>, id: string)
    ensures Toggled(Toggled(items, id), id) == items
  {
    var once := Toggled(items, id);
    var twice := Toggled(once, id);
    forall i | 0 <= i < |items| ensures twice[i] == items[i] {
      assert once[i].id == items[i].id;
    }
  }

  /** `items.filter(item => item.id !== id)`. */
  function WithoutItem(items: seq<Item>, id: string): (r: seq<Item>)
    ensures forall i :: 0 <= i < |r| ==> r[i].id != id && r[i] in items
    ensures forall i :: 0 <= i < |items| && items[i].id != id ==> items[i] in r
  {
    Seqs.Filter(items, (it: Item) => it.id != id)
  }

  /** Deleting keeps the remaining items in their order: deleting from a concatenation
      deletes from each part. */
  lemma DeleteKeepsOrder(a: seq<Item>, b: seq<Item>, id: string)
    ensures WithoutItem(a + b, id) == WithoutItem(a, id) + WithoutItem(b, id)
  {
    Seqs.FilterAppend(a, b, (it: Item) => it.id != id);
  }

  predicate IsOpen(it: Item) {
    !it.completed
  }

  /** `items.filter(i => !i.completed).length`. */
  function ItemsLeft(items: seq<Item>): (n: nat)
    ensures n <= |items|
    ensures n == 0 <==> forall i :: 0 <= i < |items| ==> items[i].completed
  {
    Seqs.Count(items, IsOpen)
  }

  /** An open item put in front raises the count of items left by one. */
  lemma {:induction false} ItemsLeftAfterPrepend(it: Item, items: seq<Item>)
    ensures ItemsLeft([it] + items) == ItemsLeft(items) + (if it.completed then 0 else 1)
  {
    assert ([it] + items)[1..] == items;
  }

  /** Toggling one item with a unique id moves the count of items left by exactly one. */
  lemma {:induction false} ToggleMovesCountByOne(items: seq<Item>, id: string, k: int)
    requires 0 <= k < |items| && items[k].id == id
    requires forall i :: 0 <= i < |items| && i != k ==> items[i].id != id
    ensures ItemsLeft(Toggled(items, id)) == ItemsLeft(items) + (if items[k].completed then 1 else -1)
  {
    var t := Toggled(items, id);
    assert items == items[..k] + [items[k]] + items[k + 1..];
    assert t == t[..k] + [t[k]] + t[k + 1..];
    assert t[..k] == items[..k];
    assert t[k + 1..] == items[k + 1..];
    Seqs.CountAppend(items[..k] + [items[k]], items[k + 1..], IsOpen);
    Seqs.CountAppend(items[..k], [items[k]], IsOpen);
    Seqs.CountAppend(t[..k] + [t[k]], t[k + 1..], IsOpen);
    Seqs.CountAppend(t[..k], [t[k]], IsOpen);
    assert Seqs.Count([items[k]], IsOpen) == (if items[k].completed then 0 else 1);
    assert Seqs.Count([t[k]], IsOpen) == (if items[k].completed then 1 else 0);
  }

  /** The state of the shopping page. */
  class ShoppingList {
    var items: seq<Item>

    constructor ()
      ensures items == InitialItems
    {
      items := InitialItems;
    }

    /** `addItem`: a blank input changes nothing; otherwise one open item with the trimmed
        text goes in front of the unchanged old list. */
    method AddItem(input: string, id: string)
      modifies this
      ensures items == match NewItem(input, id)
                       case None => old(items)
                       case Some(it) => [it] + old(items)
      ensures NewItem(input, id).Some? ==> ItemsLeft(items) == ItemsLeft(old(items)) + 1
    {
      var it := NewItem(input, id);
      if it.Some? {
        ItemsLeftAfterPrepend(it.value, items);
        items := [it.value] + items;
      }
    }

    method ToggleItem(id: string)
      modifies this
      ensures items == Toggled(old(items), id)
    {
      items := Toggled(items, id);
    }

    method DeleteItem(id: string)
      modifies this
      ensures items == WithoutItem(old(items), id)
    {
      items := WithoutItem(items, id);
    }
  }
}
