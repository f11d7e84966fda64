/**
 * The size editor of the product form: a map from size label to quantity that the
 * user builds by toggling predefined sizes, typing quantities and adding custom
 * labels. The map is paired with the order its labels were added in. A JavaScript
 * object does not list its keys in that order, though: `Object.entries` (and the
 * spread `{ ...o }`) visits the keys that are array indices first, in ascending
 * numeric order, and only then the other keys in the order they were added
 * (`Listed`). Every shoe size is an array index. `notifyChange` hands the entries
 * to the form in the order `Listed` gives.
 */
module SizeManager {
  import opened Wrappers
  import opened Text
  import opened Inventory

  predicate NoDuplicates(s: seq<string>) {
    forall i, j :: 0 <= i < j < |s| ==> s[i] != s[j]
  }

  /**
   * The selected sizes: quantities by label, and the labels in the order they were
   * added. A copy made with `{ ...o }` adds the keys in `Listed` order, which keeps
   * the relative order of the keys that are not array indices, so this order stays
   * the addition order across the copies the handlers make.
   */
  datatype Selection = Selection(quantities: map<string, int>, order: seq<string>)

  /** The labels listed are exactly the keys, once each, and every quantity is at least 1. */
  ghost predicate WellFormed(s: Selection) {
    (forall l :: l in s.quantities <==> l in s.order)
    && NoDuplicates(s.order)
    && (forall l :: l in s.quantities ==> s.quantities[l] >= 1)
  }

  /** `selectedSizes[size]` is truthy for a key of the selection: present and not zero. */
  predicate IsSet(s: Selection, size: string) {
    size in s.quantities && s.quantities[size] != 0
  }

  /**
   * The names every plain object inherits from `Object.prototype`. Looking one of
   * them up finds a function, or for `__proto__` the prototype itself, so the
   * lookup is truthy even though the object has no such key of its own.
   */
  const InheritedNames: set<string> := {
    "constructor", "hasOwnProperty", "isPrototypeOf", "propertyIsEnumerable",
    "toLocaleString", "toString", "valueOf", "__proto__",
    "__defineGetter__", "__defineSetter__", "__lookupGetter__", "__lookupSetter__"
  }

  /** `newSizes[size]` is truthy for any label: an own key that is not zero, or an inherited name. */
  predicate LooksSet(s: Selection, size: string) {
    if size in s.quantities then s.quantities[size] != 0 else size in InheritedNames
  }

  // ---------------------------------------------------------------- key order

  /** Assigning to a key adds it last when new and leaves its place when present. */
  function Added(order: seq<string>, x: string): (r: seq<string>)
    ensures forall y :: y in r <==> y in order || y == x
    ensures NoDuplicates(order) ==> NoDuplicates(r)
  {
    if x in order then order else order + [x]
  }

  /** `delete` takes the key out and keeps the others in order. */
  function RemoveLabel(order: seq<string>, x: string): (r: seq<string>)
    ensures |r| <= |order|
    ensures forall y :: y in r <==> y in order && y != x
    ensures NoDuplicates(order) ==> NoDuplicates(r)
  {
    if |order| == 0 then []
    else
      var init := order[..|order| - 1];
      var last := order[|order| - 1];
      assert forall y :: y in order <==> y in init || y == last;
      assert NoDuplicates(order) ==> NoDuplicates(init) && last !in init;
      var rest := RemoveLabel(init, x);
      if last == x then rest else rest + [last]
  }

  lemma {:induction false} RemoveAbsent(order: seq<string>, x: string)
    requires x !in order
    ensures RemoveLabel(order, x) == order
  {
    if |order| > 0 {
      RemoveAbsent(order[..|order| - 1], x);
    }
  }

  /** Removing the label just appended gives the original order back. */
  lemma RemoveAppended(order: seq<string>, x: string)
    requires x !in order
    ensures RemoveLabel(order + [x], x) == order
  {
    assert (order + [x])[..|order|] == order;
    RemoveAbsent(order, x);
  }

  // ---------------------------------------------------------------- enumeration order

  /**
   * An array index: the canonical decimal form (digits only, no leading zero) of an
   * integer from 0 to 2^32 - 2. Every shoe size is one.
   */
  predicate IsArrayIndex(l: string) {
    |l| >= 1 && (forall i :: 0 <= i < |l| ==> IsDigit(l[i]))
    && (l[0] == '0' ==> |l| == 1)
    && ParseDigits(l) <= 0xFFFF_FFFE
  }

  function IndexValue(l: string): nat
    requires IsArrayIndex(l)
  {
    ParseDigits(l)
  }

  /** Array indices only, in ascending numeric order. */
  predicate IndexSorted(s: seq<string>) {
    (forall i :: 0 <= i < |s| ==> IsArrayIndex(s[i]))
    && forall i, j :: 0 <= i < j < |s| ==> IndexValue(s[i]) <= IndexValue(s[j])
  }

  /** Places an array index in an ascending list of them, before the first larger one. */
  function InsertIndex(s: seq<string>, x: string): (r: seq<string>)
    requires IndexSorted(s) && IsArrayIndex(x)
    ensures IndexSorted(r)
    ensures multiset(r) == multiset(s) + multiset{x}
  {
    if |s| == 0 || IndexValue(x) <= IndexValue(s[0]) then
      assert forall i :: 1 <= i < |[x] + s| ==> ([x] + s)[i] == s[i - 1];
      [x] + s
    else
      var rest := InsertIndex(s[1..], x);
      InsertedAfterFirst(s, x, rest);
      [s[0]] + rest
  }

  /** Putting the first element back in front of the insertion into the others keeps the order. */
  lemma InsertedAfterFirst(s: seq<string>, x: string, rest: seq<string>)
    requires IndexSorted(s) && |s| > 0 && IsArrayIndex(x) && IndexValue(s[0]) < IndexValue(x)
    requires IndexSorted(rest) && multiset(rest) == multiset(s[1..]) + multiset{x}
    ensures IndexSorted([s[0]] + rest)
    ensures multiset([s[0]] + rest) == multiset(s) + multiset{x}
  {
    assert s == [s[0]] + s[1..];
    forall i | 0 <= i < |rest|
      ensures IndexValue(s[0]) <= IndexValue(rest[i])
    {
      assert rest[i] in multiset(rest);
      assert rest[i] in s[1..] || rest[i] == x;
    }
    assert forall i :: 1 <= i < |[s[0]] + rest| ==> ([s[0]] + rest)[i] == rest[i - 1];
  }

  /** The array-index labels of `order`, smallest first. */
  function IndexKeys(order: seq<string>): (r: seq<string>)
    ensures IndexSorted(r)
  {
    if |order| == 0 then []
    else
      var x := order[|order| - 1];
      var init := IndexKeys(order[..|order| - 1]);
      if IsArrayIndex(x) then InsertIndex(init, x) else init
  }

  /** The other labels of `order`, in the order they were added. */
  function OtherKeys(order: seq<string>): (r: seq<string>)
    ensures forall i :: 0 <= i < |r| ==> !IsArrayIndex(r[i])
  {
    if |order| == 0 then []
    else
      var x := order[|order| - 1];
      var init := OtherKeys(order[..|order| - 1]);
      if IsArrayIndex(x) then init else init + [x]
  }

  /**
   * The order in which `Object.entries` (and the spread `{ ...o }`) visits the keys
   * of an object whose keys were added in `order`: array indices first, ascending,
   * then the other keys in the order they were added. The result lists the same
   * keys, as often as `order` does.
   */
  function Listed(order: seq<string>): (r: seq<string>)
    ensures |r| == |order|
    ensures forall y :: y in r <==> y in order
  {
    var r := IndexKeys(order) + OtherKeys(order);
    ListedKeys(order);
    assert |multiset(r)| == |r| && |multiset(order)| == |order|;
    assert forall y :: y in r <==> y in multiset(r);
    assert forall y :: y in order <==> y in multiset(order);
    r
  }

  /** The entries are the keys: each label as often as it was added. */
  lemma ListedPermutes(order: seq<string>)
    ensures multiset(Listed(order)) == multiset(order)
  {
    ListedKeys(order);
  }

  /** Nothing but a smaller or equal array index comes before an array index. */
  lemma IndicesFirst(order: seq<string>)
    ensures var r := Listed(order);
            forall i, j :: 0 <= i < j < |r| && IsArrayIndex(r[j]) ==>
              IsArrayIndex(r[i]) && IndexValue(r[i]) <= IndexValue(r[j])
  {
    var a, b := IndexKeys(order), OtherKeys(order);
    assert forall j :: |a| <= j < |a + b| ==> (a + b)[j] == b[j - |a|];
  }

  lemma {:induction false} ListedKeys(order: seq<string>)
    ensures multiset(IndexKeys(order) + OtherKeys(order)) == multiset(order)
  {
    if |order| > 0 {
      var init := order[..|order| - 1];
      var x := order[|order| - 1];
      assert order == init + [x];
      ListedKeys(init);
    }
  }

  /**
   * Adding a label: one that is not an array index goes last; an array index goes
   * among the array indices by its value, and the other labels keep their places.
   */
  lemma ListedAppend(order: seq<string>, x: string)
    ensures !IsArrayIndex(x) ==> Listed(order + [x]) == Listed(order) + [x]
    ensures IsArrayIndex(x) ==>
              IndexKeys(order + [x]) == InsertIndex(IndexKeys(order), x)
              && OtherKeys(order + [x]) == OtherKeys(order)
  {
    assert (order + [x])[..|order|] == order;
  }

  /** Without array indices among the labels, the entries come in the order the labels were added. */
  lemma {:induction false} ListedWithoutIndices(order: seq<string>)
    requires forall i :: 0 <= i < |order| ==> !IsArrayIndex(order[i])
    ensures Listed(order) == order
  {
    if |order| > 0 {
      var init := order[..|order| - 1];
      ListedWithoutIndices(init);
      assert order == init + [order[|order| - 1]];
    }
  }

  /** With array indices only, the entries come in ascending numeric order. */
  lemma {:induction false} ListedOnlyIndices(order: seq<string>)
    requires forall i :: 0 <= i < |order| ==> IsArrayIndex(order[i])
    ensures IndexSorted(Listed(order))
    ensures OtherKeys(order) == []
  {
    if |order| > 0 {
      ListedOnlyIndices(order[..|order| - 1]);
    }
  }

  // ---------------------------------------------------------------- operations

  /** `handleSizeToggle`: a set size is deleted, any other is set to 1. */
  function Toggled(s: Selection, size: string): (r: Selection)
    ensures IsSet(s, size) ==> size !in r.quantities
    ensures !IsSet(s, size) ==> size in r.quantities && r.quantities[size] == 1
    ensures forall l :: l != size ==> (l in r.quantities <==> l in s.quantities)
    ensures forall l :: l != size && l in r.quantities ==> r.quantities[l] == s.quantities[l]
    ensures WellFormed(s) ==> WellFormed(r)
  {
    if IsSet(s, size) then Selection(s.quantities - {size}, RemoveLabel(s.order, size))
    else Selection(s.quantities[size := 1], Added(s.order, size))
  }

  /** Toggling an unselected size twice gives the selection back; a selected one comes back at 1. */
  lemma ToggleTwice(s: Selection, size: string)
    requires WellFormed(s)
    ensures size !in s.quantities ==> Toggled(Toggled(s, size), size) == s
    ensures size in s.quantities ==> Toggled(Toggled(s, size), size).quantities == s.quantities[size := 1]
  {
    if size !in s.quantities {
      RemoveAppended(s.order, size);
      assert s.quantities[size := 1] - {size} == s.quantities;
    }
  }

  /**
   * `handleQuantityChange`: `parseInt(quantity) || 0`, with `parsed` the result of
   * `parseInt` (None for NaN). A positive number is stored, anything else removes the size.
   */
  function QuantityChanged(s: Selection, size: string, parsed: Option<int>): (r: Selection)
    ensures OrElse(parsed, 0) > 0 ==> size in r.quantities && r.quantities[size] == parsed.value
    ensures OrElse(parsed, 0) <= 0 ==> size !in r.quantities
    ensures forall l :: l != size ==> (l in r.quantities <==> l in s.quantities)
    ensures forall l :: l != size && l in r.quantities ==> r.quantities[l] == s.quantities[l]
    ensures WellFormed(s) ==> WellFormed(r)
  {
    var n := OrElse(parsed, 0);
    if n > 0 then Selection(s.quantities[size := n], Added(s.order, size))
    else Selection(s.quantities - {size}, RemoveLabel(s.order, size))
  }

  /**
   * `handleCustomSizeAdd` on the selection: the trimmed label is added with 1 unless
   * it is blank or the lookup `newSizes[size]` is truthy, which it is for a size
   * already set and for a name the object inherits; `None` when nothing changes.
   */
  function CustomAdded(s: Selection, customSize: string): (r: Option<Selection>)
    ensures r.None? <==> Trim(customSize) == "" || LooksSet(s, Trim(customSize))
    ensures WellFormed(s) ==>
              (r.None? <==> Trim(customSize) == "" || Trim(customSize) in s.quantities
                            || Trim(customSize) in InheritedNames)
    ensures r.Some? ==> r.value.quantities == s.quantities[Trim(customSize) := 1]
    ensures r.Some? && WellFormed(s) ==> WellFormed(r.value) && r.value.order == s.order + [Trim(customSize)]
    ensures r.Some? && WellFormed(s) && !IsArrayIndex(Trim(customSize)) ==>
              Listed(r.value.order) == Listed(s.order) + [Trim(customSize)]
    ensures r.Some? && WellFormed(s) && IsArrayIndex(Trim(customSize)) ==>
              Listed(r.value.order) == InsertIndex(IndexKeys(s.order), Trim(customSize)) + OtherKeys(s.order)
  {
    var size := Trim(customSize);
    if size == "" || LooksSet(s, size) then None
    else
      ListedAppend(s.order, size);
      Some(Selection(s.quantities[size := 1], Added(s.order, size)))
  }

  // ---------------------------------------------------------------- initialisation

  /** An entry of the list the editor starts from (`value`). */
  datatype SizeItem = SizeItem(size: string, quantity: Option<int>, totalQuantity: Option<int>)

  predicate ItemNonNegative(item: SizeItem) {
    (item.quantity.Some? ==> item.quantity.value >= 0)
    && (item.totalQuantity.Some? ==> item.totalQuantity.value >= 0)
  }

  /** `item.quantity || item.total_quantity || 1`. */
  function ItemQuantity(item: SizeItem): int {
    OrElse(item.quantity, OrElse(item.totalQuantity, 1))
  }

  /** The labels of the items in first-appearance order. */
  function InitialOrder(items: seq<SizeItem>): (r: seq<string>)
    ensures NoDuplicates(r)
    ensures forall l :: l in r <==> exists i :: 0 <= i < |items| && items[i].size == l
  {
    if |items| == 0 then []
    else
      var init := items[..|items| - 1];
      assert forall i :: 0 <= i < |init| ==> init[i] == items[i];
      Added(InitialOrder(init), items[|items| - 1].size)
  }

  /** One entry per label; a later item with the same label overwrites an earlier one. */
  function InitialQuantities(items: seq<SizeItem>): (m: map<string, int>)
    ensures forall l :: l in m <==> exists i :: 0 <= i < |items| && items[i].size == l
    ensures (forall i :: 0 <= i < |items| ==> ItemNonNegative(items[i])) ==>
              forall l :: l in m ==> m[l] >= 1
  {
    if |items| == 0 then map[]
    else
      var init := items[..|items| - 1];
      assert forall i :: 0 <= i < |init| ==> init[i] == items[i];
      InitialQuantities(init)[items[|items| - 1].size := ItemQuantity(items[|items| - 1])]
  }

  /** The quantity of a label is that of the last item carrying it. */
  lemma {:induction false} LastItemWins(items: seq<SizeItem>, i: int)
    requires 0 <= i < |items|
    requires forall j :: i < j < |items| ==> items[j].size != items[i].size
    ensures items[i].size in InitialQuantities(items)
    ensures InitialQuantities(items)[items[i].size] == ItemQuantity(items[i])
  {
    if i < |items| - 1 {
      var init := items[..|items| - 1];
      LastItemWins(init, i);
    }
  }

  // ---------------------------------------------------------------- derived values

  /** The list `notifyChange` hands over for one entry: the quantity survives `parseInt`. */
  function Entry(size: string, quantity: int): (e: SizeRequest)
    ensures e == SizeRequest(size, Some(quantity), None)
  {
    ParseIntToString(quantity);
    SizeRequest(size, Some(ParseInt(IntToString(quantity))), None)
  }

  /** `notifyChange`: one `{size, quantity}` per key, in the order `Object.entries` lists them. */
  function Notification(s: Selection): (r: seq<SizeRequest>)
    requires forall l :: l in s.order ==> l in s.quantities
    ensures |r| == |s.order|
    ensures forall i :: 0 <= i < |r| ==>
              r[i] == SizeRequest(Listed(s.order)[i], Some(s.quantities[Listed(s.order)[i]]), None)
  {
    var keys := Listed(s.order);
    seq(|keys|, i requires 0 <= i < |keys| => Entry(keys[i], s.quantities[keys[i]]))
  }

  /** The sum of the quantities of the labels in `order`. */
  function Sum(order: seq<string>, m: map<string, int>): (n: int)
    requires forall l :: l in order ==> l in m
  {
    if |order| == 0 then 0
    else
      var init := order[..|order| - 1];
      assert forall l :: l in init ==> l in order;
      Sum(init, m) + m[order[|order| - 1]]
  }

  /** With every quantity at least 1, the sum is at least the number of labels. */
  lemma {:induction false} SumAtLeastCount(order: seq<string>, m: map<string, int>)
    requires forall l :: l in order ==> l in m && m[l] >= 1
    ensures Sum(order, m) >= |order|
  {
    if |order| > 0 {
      var init := order[..|order| - 1];
      assert forall l :: l in init ==> l in order;
      SumAtLeastCount(init, m);
    }
  }

  /** Changing one key changes the sum by the difference, when that key is listed once. */
  lemma {:induction false} SumUpdate(order: seq<string>, m: map<string, int>, k: string, n: int)
    requires forall l :: l in order ==> l in m
    requires NoDuplicates(order)
    ensures Sum(order, m[k := n]) == Sum(order, m) + (if k in order then n - m[k] else 0)
  {
    if |order| > 0 {
      var init := order[..|order| - 1];
      assert forall l :: l in init ==> l in order;
      assert order == init + [order[|order| - 1]];
      SumUpdate(init, m, k, n);
    }
  }

  /** Dropping a listed key from order and map takes its quantity off the sum. */
  lemma {:induction false} SumRemove(order: seq<string>, m: map<string, int>, k: string)
    requires forall l :: l in order ==> l in m
    requires NoDuplicates(order)
    ensures Sum(RemoveLabel(order, k), m - {k}) == Sum(order, m) - (if k in order then m[k] else 0)
  {
    if |order| > 0 {
      var init := order[..|order| - 1];
      var last := order[|order| - 1];
      assert forall l :: l in init ==> l in order;
      assert order == init + [last];
      SumRemove(init, m, k);
      if last == k {
        assert k !in init;
        RemoveAbsent(init, k);
        SumOther(init, m, k);
      } else {
        var removed := RemoveLabel(init, k);
        assert RemoveLabel(order, k) == removed + [last];
        assert forall l :: l in removed ==> l in m - {k};
        SumAppend(removed, m - {k}, last);
      }
    }
  }

  /** The sum does not look at keys that are not listed. */
  lemma {:induction false} SumOther(order: seq<string>, m: map<string, int>, k: string)
    requires forall l :: l in order ==> l in m
    requires k !in order
    ensures Sum(order, m - {k}) == Sum(order, m)
  {
    if |order| > 0 {
      var init := order[..|order| - 1];
      assert forall l :: l in init ==> l in order;
      SumOther(init, m, k);
    }
  }

  lemma {:induction false} SumConcat(a: seq<string>, b: seq<string>, m: map<string, int>)
    requires forall l :: l in a + b ==> l in m
    ensures Sum(a + b, m) == Sum(a, m) + Sum(b, m)
  {
    if |b| == 0 {
      assert a + b == a;
    } else {
      var init := b[..|b| - 1];
      assert (a + b)[..|a + b| - 1] == a + init;
      assert forall l :: l in a + init ==> l in a + b;
      SumConcat(a, init, m);
    }
  }

  /** Taking the label at `j` out of `b` takes one copy of it out of the multiset. */
  lemma RemoveAt(b: seq<string>, j: int)
    requires 0 <= j < |b|
    ensures b == b[..j] + [b[j]] + b[j + 1..]
    ensures multiset(b[..j] + b[j + 1..]) == multiset(b) - multiset{b[j]}
  {
    assert b == b[..j] + [b[j]] + b[j + 1..];
    assert multiset(b) == multiset(b[..j] + b[j + 1..]) + multiset{b[j]};
  }

  /** A label in the middle of the list adds its quantity to the sum of the others. */
  lemma SumAround(before: seq<string>, x: string, after: seq<string>, m: map<string, int>)
    requires forall l :: l in before + [x] + after ==> l in m
    ensures forall l :: l in before + after ==> l in m
    ensures Sum(before + [x] + after, m) == Sum(before + after, m) + m[x]
  {
    assert forall l :: l in before + after ==> l in before + [x] + after;
    SumConcat(before + [x], after, m);
    SumAppend(before, m, x);
    SumConcat(before, after, m);
  }

  /** One step of `SumPermutation`: the last label of `a` sits at `j` in `b`. */
  lemma SumPermutationStep(init: seq<string>, x: string, b: seq<string>, j: int, m: map<string, int>)
    requires 0 <= j < |b| && b[j] == x
    requires forall l :: l in init + [x] ==> l in m
    requires forall l :: l in b ==> l in m
    requires forall l :: l in init ==> l in m
    requires forall l :: l in b[..j] + b[j + 1..] ==> l in m
    requires Sum(init, m) == Sum(b[..j] + b[j + 1..], m)
    ensures Sum(init + [x], m) == Sum(b, m)
  {
    RemoveAt(b, j);
    SumAround(b[..j], x, b[j + 1..], m);
    SumAppend(init, m, x);
  }

  /** Finds the last label of `a` in `b`; what is left of both is again a permutation. */
  lemma PeelLast(a: seq<string>, b: seq<string>) returns (j: int)
    requires |a| > 0 && multiset(a) == multiset(b)
    ensures 0 <= j < |b| && b[j] == a[|a| - 1]
    ensures multiset(a[..|a| - 1]) == multiset(b[..j] + b[j + 1..])
  {
    var init, x := a[..|a| - 1], a[|a| - 1];
    assert a == init + [x];
    assert x in multiset(b);
    j :| 0 <= j < |b| && b[j] == x;
    RemoveAt(b, j);
    assert multiset(init) == multiset(a) - multiset{x};
  }

  /** The sum does not depend on the order the labels are listed in. */
  lemma {:induction false} SumPermutation(a: seq<string>, b: seq<string>, m: map<string, int>)
    requires multiset(a) == multiset(b)
    requires forall l :: l in a ==> l in m
    requires forall l :: l in b ==> l in m
    ensures Sum(a, m) == Sum(b, m)
  {
    if |a| == 0 {
      assert |multiset(b)| == 0;
      assert b == [];
    } else {
      var j := PeelLast(a, b);
      var init, x, rest := a[..|a| - 1], a[|a| - 1], b[..j] + b[j + 1..];
      assert a == init + [x];
      assert forall l :: l in init ==> l in a;
      assert forall l :: l in rest ==> l in b;
      SumPermutation(init, rest, m);
      SumPermutationStep(init, x, b, j, m);
    }
  }

  /** `Object.values` adds the quantities up in entry order, which gives the same total. */
  lemma SumListed(order: seq<string>, m: map<string, int>)
    requires forall l :: l in order ==> l in m
    ensures Sum(Listed(order), m) == Sum(order, m)
  {
    ListedPermutes(order);
    SumPermutation(Listed(order), order, m);
  }

  /** An empty map lists no labels, and the other way round. */
  lemma NothingListed(s: Selection)
    requires WellFormed(s)
    ensures |s.quantities| == 0 <==> |s.order| == 0
  {
    if |s.order| > 0 {
      assert s.order[0] in s.quantities;
    }
    if |s.quantities| > 0 {
      var l :| l in s.quantities;
      assert l in s.order;
    }
  }

  /** `totalItems`: the sum of all quantities. */
  function TotalItems(s: Selection): (n: int)
    requires WellFormed(s)
    ensures n >= |s.order|
    ensures n == 0 <==> |s.quantities| == 0
  {
    SumAtLeastCount(s.order, s.quantities);
    NothingListed(s);
    Sum(s.order, s.quantities)
  }

  lemma SumAppend(order: seq<string>, m: map<string, int>, k: string)
    requires forall l :: l in order ==> l in m
    requires k in m
    ensures Sum(order + [k], m) == Sum(order, m) + m[k]
  {
    assert (order + [k])[..|order|] == order;
  }

  /** Setting a positive quantity moves the total from the old quantity (none when new) to the new one. */
  lemma TotalAfterSet(s: Selection, size: string, n: int)
    requires WellFormed(s) && n > 0
    ensures TotalItems(QuantityChanged(s, size, Some(n)))
              == TotalItems(s) - (if size in s.quantities then s.quantities[size] else 0) + n
  {
    var m := s.quantities[size := n];
    SumUpdate(s.order, s.quantities, size, n);
    if size !in s.order {
      SumAppend(s.order, m, size);
    }
  }

  /** The total moves by exactly the quantity a change adds or takes away. */
  lemma TotalAfterChange(s: Selection, size: string, parsed: Option<int>)
    requires WellFormed(s)
    ensures TotalItems(QuantityChanged(s, size, parsed))
              == TotalItems(s) - (if size in s.quantities then s.quantities[size] else 0)
                 + (if OrElse(parsed, 0) > 0 then parsed.value else 0)
  {
    if OrElse(parsed, 0) > 0 {
      TotalAfterSet(s, size, parsed.value);
    } else {
      SumRemove(s.order, s.quantities, size);
    }
  }

  /** Toggling on adds one item; toggling off takes away that size's whole quantity. */
  lemma TotalAfterToggle(s: Selection, size: string)
    requires WellFormed(s)
    ensures IsSet(s, size) ==> TotalItems(Toggled(s, size)) == TotalItems(s) - s.quantities[size]
    ensures !IsSet(s, size) ==> TotalItems(Toggled(s, size)) == TotalItems(s) + 1
  {
    if IsSet(s, size) {
      SumRemove(s.order, s.quantities, size);
    } else {
      TotalAfterSet(s, size, 1);
    }
  }

  // ---------------------------------------------------------------- the component

  /** The editor's state: the selection, the custom-size input and what it last reported. */
  class SizeEditor {
    var selected: Selection
    var customSize: string
    /** The list last passed to `onChange`. */
    var notified: seq<SizeRequest>

    ghost predicate Valid()
      reads this
    {
      WellFormed(selected)
    }

    /** Mounting: the selection is filled from `value`, when it has any items. */
    constructor(items: seq<SizeItem>)
      requires forall i :: 0 <= i < |items| ==> ItemNonNegative(items[i])
      ensures Valid()
      ensures selected == Selection(InitialQuantities(items), InitialOrder(items))
      ensures customSize == "" && notified == []
    {
      selected := Selection(map[], []);
      customSize := "";
      notified := [];
      new;
      if |items| > 0 {
        var quantities: map<string, int> := map[];
        var order: seq<string> := [];
        var i := 0;
        while i < |items|
          invariant 0 <= i <= |items|
          invariant quantities == InitialQuantities(items[..i]) && order == InitialOrder(items[..i])
        {
          assert items[..i + 1][..i] == items[..i];
          var item := items[i];
          order := Added(order, item.size);
          quantities := quantities[item.size := ItemQuantity(item)];
          i := i + 1;
        }
        assert items[..|items|] == items;
        selected := Selection(quantities, order);
      }
    }

    /** `handleSizeToggle`, then `notifyChange`. */
    method Toggle(size: string)
      requires Valid()
      modifies this
      ensures Valid()
      ensures selected == Toggled(old(selected), size)
      ensures notified == Notification(selected)
      ensures customSize == old(customSize)
    {
      var next := Toggled(selected, size);
      assert WellFormed(next);
      selected, notified := next, Notification(next);
    }

    /** `handleQuantityChange`, then `notifyChange`. */
    method ChangeQuantity(size: string, parsed: Option<int>)
      requires Valid()
      modifies this
      ensures Valid()
      ensures selected == QuantityChanged(old(selected), size, parsed)
      ensures notified == Notification(selected)
      ensures customSize == old(customSize)
    {
      var next := QuantityChanged(selected, size, parsed);
      assert WellFormed(next);
      selected, notified := next, Notification(next);
    }

    /** Typing in the custom-size field. */
    method SetCustomSize(text: string)
      modifies this
      ensures customSize == text
      ensures selected == old(selected) && notified == old(notified)
    {
      customSize := text;
    }

    /**
     * `handleCustomSizeAdd`: a blank label, one already selected or one the object
     * inherits changes nothing; otherwise the label is added, reported, and the
     * field is cleared.
     */
    method AddCustomSize()
      requires Valid()
      modifies this
      ensures Valid()
      ensures CustomAdded(old(selected), old(customSize)).None? ==>
                selected == old(selected) && customSize == old(customSize) && notified == old(notified)
      ensures CustomAdded(old(selected), old(customSize)).Some? ==>
                selected == CustomAdded(old(selected), old(customSize)).value
                && notified == Notification(selected) && customSize == ""
    {
      var size := Trim(customSize);
      if size == "" {
        return;
      }
      if !LooksSet(selected, size) {
        selected := Selection(selected.quantities[size := 1], Added(selected.order, size));
        notified := Notification(selected);
        customSize := "";
      }
    }
  }
}
