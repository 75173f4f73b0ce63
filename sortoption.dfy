/**
 * The sort options of flow/dataset_sort_option.go: an ordered list of
 * column indexes, each ascending or descending, built by `Field`,
 * `OrderBy` and the chaining `By`, and read back by `Indexes` and
 * `String`.
 */
module SortOptions {
  import opened Outcomes
  import opened Numerals

  /** `instruction.Order`. */
  datatype Order = Ascending | Descending

  /** `instruction.OrderBy`: a column index and its direction. */
  datatype OrderByEntry = OrderByEntry(index: int, order: Order)

  /** The direction a flag asks for. */
  function OrderOf(ascending: bool): Order
  {
    if ascending then Ascending else Descending
  }

  /** The direction's word in `String`. */
  function OrderWord(o: Order): string
  {
    if o == Ascending then "asc" else "desc"
  }

  /** What `String` writes for one entry: the index, one space, the direction. */
  function EntryText(e: OrderByEntry): string
  {
    IntToString(e.index) + " " + OrderWord(e.order)
  }

  /** The texts of the first `n` entries one after the other, with nothing between them. */
  function Render(list: seq<OrderByEntry>, n: nat): string
    requires n <= |list|
  {
    if n == 0 then "" else Render(list, n - 1) + EntryText(list[n - 1])
  }

  /** A rendering starts with the first entry's text. */
  lemma {:induction false} RenderFront(list: seq<OrderByEntry>, n: nat)
    requires 1 <= n <= |list|
    ensures Render(list, n) == EntryText(list[0]) + Render(list[1..], n - 1)
  {
    if n > 1 {
      RenderFront(list, n - 1);
    }
  }

  /** Reads the entries back from a rendering: a signed index up to the first space, then `asc` or `desc`. */
  function ParseEntries(s: string): Option<seq<OrderByEntry>>
    decreases |s|
  {
    if s == [] then Some([])
    else
      var i := IndexOfChar(s, ' ');
      if i == |s| || !IsIntText(s[..i]) then None
      else
        var rest := s[i + 1..];
        match ReadOrder(rest)
        case None => None
        case Some(o) => Prepend(OrderByEntry(ParseInt(s[..i]), o), ParseEntries(rest[|OrderWord(o)|..]))
  }

  /** The direction word a text starts with. */
  function ReadOrder(s: string): (o: Option<Order>)
    ensures o.Some? ==> |OrderWord(o.value)| <= |s|
  {
    if |s| >= 3 && s[..3] == "asc" then Some(Ascending)
    else if |s| >= 4 && s[..4] == "desc" then Some(Descending)
    else None
  }

  lemma ReadOrderWord(o: Order, tail: string)
    ensures ReadOrder(OrderWord(o) + tail) == Some(o)
    ensures (OrderWord(o) + tail)[|OrderWord(o)|..] == tail
  {
    var s := OrderWord(o) + tail;
    if o == Ascending {
      assert s[..3] == "asc";
    } else {
      assert s[0] == 'd';
      assert s[..4] == "desc";
    }
  }

  function Prepend(e: OrderByEntry, tail: Option<seq<OrderByEntry>>): Option<seq<OrderByEntry>>
  {
    if tail.None? then None else Some([e] + tail.value)
  }

  /** The index text ends at the first space of an entry's text. */
  lemma EntryFields(e: OrderByEntry, tail: string)
    ensures var s, num := EntryText(e) + tail, IntToString(e.index);
            IndexOfChar(s, ' ') == |num| && s[..|num|] == num && s[|num| + 1..] == OrderWord(e.order) + tail
  {
    var num := IntToString(e.index);
    var rest := OrderWord(e.order) + tail;
    var s := num + [' '] + rest;
    assert EntryText(e) + tail == s;
    assert ' ' !in num;
    IndexAfter(num, ' ', rest);
    assert s[..|num|] == num;
    assert s[|num| + 1..] == rest;
  }

  /** Reading an entry's text gives the entry, and reading goes on after it. */
  lemma ParseEntry(e: OrderByEntry, tail: string)
    ensures ParseEntries(EntryText(e) + tail) == Prepend(e, ParseEntries(tail))
  {
    EntryFields(e, tail);
    IntRoundTrip(e.index);
    ReadOrderWord(e.order, tail);
  }

  /**
   * Though nothing separates the entries, the text `String` writes
   * determines the list: reading it back gives the list.
   */
  lemma {:induction false} ParseRender(list: seq<OrderByEntry>)
    ensures ParseEntries(Render(list, |list|)) == Some(list)
  {
    if list != [] {
      var tail := Render(list[1..], |list| - 1);
      RenderFront(list, |list|);
      ParseEntry(list[0], tail);
      ParseRender(list[1..]);
      assert ParseEntries(Render(list, |list|)) == Prepend(list[0], Some(list[1..]));
      assert list == [list[0]] + list[1..];
    }
  }

  /** Distinct lists render differently. */
  lemma RenderInjective(a: seq<OrderByEntry>, b: seq<OrderByEntry>)
    ensures Render(a, |a|) == Render(b, |b|) ==> a == b
  {
    ParseRender(a);
    ParseRender(b);
  }

  /** `SortOption`: the list of sort keys, which `By` extends in place. */
  class SortOption {
    var orderByList: seq<OrderByEntry>

    /** `Field`: every index ascending, in the order given. */
    constructor Field(indexes: seq<int>)
      ensures |orderByList| == |indexes|
      ensures forall k :: 0 <= k < |indexes| ==> orderByList[k] == OrderByEntry(indexes[k], Ascending)
    {
      var list := [];
      for i := 0 to |indexes|
        invariant |list| == i
        invariant forall k :: 0 <= k < i ==> list[k] == OrderByEntry(indexes[k], Ascending)
      {
        list := list + [OrderByEntry(indexes[i], Ascending)];
      }
      orderByList := list;
    }

    /** `OrderBy`: one key, descending unless `ascending`. */
    constructor OrderBy(index: int, ascending: bool)
      ensures orderByList == [OrderByEntry(index, OrderOf(ascending))]
    {
      orderByList := [OrderByEntry(index, Descending)];
      new;
      if ascending {
        orderByList := [OrderByEntry(index, Ascending)];
      }
    }

    /** `By`: one more key after the ones there are; the receiver is returned for chaining. */
    method By(index: int, ascending: bool) returns (o: SortOption)
      modifies this
      ensures o == this
      ensures orderByList == old(orderByList) + [OrderByEntry(index, OrderOf(ascending))]
    {
      var order := Descending;
      if ascending {
        order := Ascending;
      }
      orderByList := orderByList + [OrderByEntry(index, order)];
      o := this;
    }

    /** `Indexes`: the keys' column indexes, in key order. */
    method Indexes() returns (ret: seq<int>)
      ensures |ret| == |orderByList|
      ensures forall k :: 0 <= k < |ret| ==> ret[k] == orderByList[k].index
    {
      ret := [];
      for i := 0 to |orderByList|
        invariant |ret| == i
        invariant forall k :: 0 <= k < i ==> ret[k] == orderByList[k].index
      {
        ret := ret + [orderByList[i].index];
      }
    }

    /** `String`: each key as `<index> asc` or `<index> desc`, with nothing between keys. */
    method String() returns (s: string)
      ensures s == Render(orderByList, |orderByList|)
    {
      s := "";
      for i := 0 to |orderByList|
        invariant s == Render(orderByList, i)
      {
        ghost var before := s;
        var field := IntToString(orderByList[i].index) + " ";
        var word := "desc";
        if orderByList[i].order == Ascending {
          word := "asc";
        }
        s := s + field;
        s := s + word;
        assert s == before + (field + word);
      }
    }
  }
}
