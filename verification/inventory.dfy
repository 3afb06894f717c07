/**
 * An inventory: the ordered list of items held by the player or by a room.
 * Insertion order is display order and decides which item a lookup finds
 * when several share a name.
 */
module Inventories {
  import opened Wrappers
  import opened Items
  import Text

  type Inventory = seq<Item>

  /** A freshly constructed inventory holds nothing. */
  const Empty: Inventory := []

  /** The number of stored items. */
  function Size(inv: Inventory): nat
  {
    |inv|
  }

  /** How a lookup compares an item's name with the requested one. */
  datatype MatchMode = Exact | IgnoreCase

  predicate NameMatches(mode: MatchMode, itemName: string, query: string)
  {
    match mode
    case Exact => itemName == query
    case IgnoreCase => Text.EqualsIgnoreCase(itemName, query)
  }

  /** Position `i` holds the first item, in insertion order, whose name matches `query`. */
  ghost predicate IsFirstMatch(inv: Inventory, query: string, mode: MatchMode, i: int)
  {
    && 0 <= i < |inv|
    && NameMatches(mode, inv[i].name, query)
    && forall k :: 0 <= k < i ==> !NameMatches(mode, inv[k].name, query)
  }

  /** Some item's name equals `name` exactly. */
  ghost predicate HasNamed(inv: Inventory, name: string)
  {
    exists k :: 0 <= k < |inv| && inv[k].name == name
  }

  /** The linear scan shared by `removeItem` and `contains`: the index of the first match, if any. */
  function FirstMatch(inv: Inventory, query: string, mode: MatchMode): (r: Option<nat>)
    ensures r.Some? ==> IsFirstMatch(inv, query, mode, r.value)
    ensures r.None? <==> forall k :: 0 <= k < |inv| ==> !NameMatches(mode, inv[k].name, query)
  {
    if |inv| == 0 then None
    else if NameMatches(mode, inv[0].name, query) then Some(0)
    else match FirstMatch(inv[1..], query, mode)
      case None => None
      case Some(i) => Some(i + 1)
  }

  /** `addItem`: the item goes at the end and the call reports success. */
  function AddItem(inv: Inventory, item: Item): (r: (Inventory, bool))
    ensures r.1
    ensures |r.0| == |inv| + 1
    ensures r.0[..|inv|] == inv && r.0[|inv|] == item
    ensures multiset(r.0) == multiset(inv) + multiset{item}
  {
    (inv + [item], true)
  }

  /** The result of `removeItem`: what is left, and the removed item or null. */
  datatype Removal = Removal(rest: Inventory, taken: Option<Item>)

  /**
   * `rest` is `inv` with exactly the first item named `name` deleted, that item
   * is `item`, and every other item keeps its relative order.
   */
  ghost predicate RemovedFirst(inv: Inventory, name: string, rest: Inventory, item: Item)
  {
    exists i ::
      && IsFirstMatch(inv, name, Exact, i)
      && inv[i] == item
      && |rest| == |inv| - 1
      && (forall k :: 0 <= k < i ==> rest[k] == inv[k])
      && (forall k :: i <= k < |rest| ==> rest[k] == inv[k + 1])
  }

  /** `removeItem`: take out the first item whose name equals `name` exactly (case-sensitive). */
  function RemoveItem(inv: Inventory, name: string): (r: Removal)
    ensures r.taken.None? <==> !HasNamed(inv, name)
    ensures r.taken.None? ==> r.rest == inv
    ensures r.taken.Some? ==> r.taken.value.name == name && RemovedFirst(inv, name, r.rest, r.taken.value)
    ensures r.taken.Some? ==> multiset(r.rest) + multiset{r.taken.value} == multiset(inv)
  {
    match FirstMatch(inv, name, Exact)
    case None => Removal(inv, None)
    case Some(i) =>
      assert inv == inv[..i] + [inv[i]] + inv[i + 1..];
      Removal(inv[..i] + inv[i + 1..], Some(inv[i]))
  }

  /** `contains`: the first item whose name equals `name` ignoring case, without removing it. */
  function Contains(inv: Inventory, name: string): (r: Option<Item>)
    ensures r.None? <==> forall k :: 0 <= k < |inv| ==> !Text.EqualsIgnoreCase(inv[k].name, name)
    ensures r.Some? ==> exists i :: IsFirstMatch(inv, name, IgnoreCase, i) && inv[i] == r.value
  {
    match FirstMatch(inv, name, IgnoreCase)
    case None => None
    case Some(i) => Some(inv[i])
  }

  /** `toString`: every item name followed by a newline, in insertion order. */
  function Render(inv: Inventory): (r: string)
    ensures r == "" <==> |inv| == 0
    ensures |inv| > 0 ==> r[|r| - 1] == '\n'
  {
    if |inv| == 0 then "" else inv[0].name + "\n" + Render(inv[1..])
  }

  /** Rendering distributes over concatenation, so it is built item by item. */
  lemma {:induction false} RenderAppend(a: Inventory, b: Inventory)
    ensures Render(a + b) == Render(a) + Render(b)
    decreases |a|
  {
    if |a| == 0 {
      assert a + b == b;
    } else {
      assert (a + b)[1..] == a[1..] + b;
      RenderAppend(a[1..], b);
    }
  }

  /** The loop of `toString`, appending one line per item, builds exactly `Render`. */
  method ToString(inv: Inventory) returns (msg: string)
    ensures msg == Render(inv)
  {
    msg := "";
    for i := 0 to |inv|
      invariant msg == Render(inv[..i])
    {
      assert inv[..i + 1] == inv[..i] + [inv[i]];
      RenderAppend(inv[..i], [inv[i]]);
      msg := msg + inv[i].name + "\n";
    }
    assert inv[..|inv|] == inv;
  }

  /** `size` counts the stored items: zero when new, one more after an add, one fewer after a successful remove. */
  lemma SizeTracksContents(inv: Inventory, item: Item, name: string)
    ensures Size(Empty) == 0
    ensures Size(AddItem(inv, item).0) == Size(inv) + 1
    ensures Size(RemoveItem(inv, name).rest) == if RemoveItem(inv, name).taken.Some? then Size(inv) - 1 else Size(inv)
  {
  }

  /** Whenever `removeItem(name)` would find something, `contains(name)` finds something too. */
  lemma ExactMatchImpliesContains(inv: Inventory, name: string)
    requires RemoveItem(inv, name).taken.Some?
    ensures Contains(inv, name).Some?
  {
    var k :| 0 <= k < |inv| && inv[k].name == name;
    Text.ExactImpliesIgnoreCase(inv[k].name, name);
  }

  /** The converse fails: `contains` ignores case, `removeItem` does not. */
  lemma ContainsDoesNotImplyRemove()
    ensures Contains([Item("Ball", "")], "ball").Some?
    ensures RemoveItem([Item("Ball", "")], "ball").taken.None?
  {
  }

  /** Two inventories listing the same names in the same order. */
  ghost predicate SameNames(a: Inventory, b: Inventory)
  {
    |a| == |b| && forall k :: 0 <= k < |a| ==> a[k].name == b[k].name
  }

  /** Lookups read names only: descriptions never influence which position is found. */
  lemma {:induction false} MatchIgnoresDescriptions(a: Inventory, b: Inventory, query: string, mode: MatchMode)
    requires SameNames(a, b)
    ensures FirstMatch(a, query, mode) == FirstMatch(b, query, mode)
    decreases |a|
  {
    if |a| > 0 {
      assert a[0].name == b[0].name;
      MatchIgnoresDescriptions(a[1..], b[1..], query, mode);
    }
  }

  /** Appending an item and then removing by its name gives back the original, provided no earlier item shares that name. */
  lemma RemoveAfterAdd(inv: Inventory, item: Item)
    requires !HasNamed(inv, item.name)
    ensures RemoveItem(AddItem(inv, item).0, item.name) == Removal(inv, Some(item))
  {
  }
}
