/** The proposal list: lookup by id and replacement by id (`replace`). */
module Repository {
  import opened Wrappers
  import opened Seqs
  import opened Proposals

  /** The ids of the proposals, position by position. */
  function Ids(items: seq<Proposal>): (r: seq<int>)
    ensures |r| == |items|
    ensures forall i :: 0 <= i < |items| ==> r[i] == items[i].id
  {
    seq(|items|, i requires 0 <= i < |items| => items[i].id)
  }

  /** `items.findIndex(i => i.id === id)`: the lowest index holding that id, or -1. */
  function FindIndex(items: seq<Proposal>, id: int): (k: int)
    ensures -1 <= k < |items|
    ensures k == -1 <==> forall j :: 0 <= j < |items| ==> items[j].id != id
    ensures k >= 0 ==> items[k].id == id
    ensures k >= 0 ==> forall j :: 0 <= j < k ==> items[j].id != id
  {
    match IndexOf(Ids(items), id)
    case None => -1
    case Some(k) => k
  }

  /** The first proposal with the given id, if any. */
  function Lookup(items: seq<Proposal>, id: int): (r: Option<Proposal>)
    ensures r.None? <==> forall j :: 0 <= j < |items| ==> items[j].id != id
    ensures r.Some? ==> r.value in items && r.value.id == id
  {
    var k := FindIndex(items, id);
    if k < 0 then None else Some(items[k])
  }

  /** `items.splice(start, 1, item)` on a copy: a negative start counts from the
      end (clamped at 0), a start past the end is clamped to the end, and at most
      one element is removed where `item` goes in. */
  function SpliceOne<T>(items: seq<T>, start: int, item: T): (r: seq<T>)
    ensures 0 <= start < |items| ==>
      |r| == |items| && r[start] == item &&
      forall j :: 0 <= j < |items| && j != start ==> r[j] == items[j]
    ensures start == -1 && |items| > 0 ==>
      |r| == |items| && r[|items| - 1] == item &&
      forall j :: 0 <= j < |items| - 1 ==> r[j] == items[j]
    ensures start == -1 && |items| == 0 ==> r == [item]
  {
    var at := if start < 0 then (if |items| + start < 0 then 0 else |items| + start)
              else (if start < |items| then start else |items|);
    var deleted := if |items| - at < 1 then |items| - at else 1;
    items[..at] + [item] + items[at + deleted..]
  }

  /** `replace(items, item)`: puts `item` at the first index holding its id. When
      no proposal has that id, the `-1` index makes the splice overwrite the last
      proposal, or append to an empty list. */
  function Replace(items: seq<Proposal>, item: Proposal): (r: seq<Proposal>)
    ensures FindIndex(items, item.id) >= 0 ==>
      |r| == |items| && r[FindIndex(items, item.id)] == item &&
      forall j :: 0 <= j < |items| && j != FindIndex(items, item.id) ==> r[j] == items[j]
    ensures FindIndex(items, item.id) == -1 && |items| > 0 ==>
      r == items[..|items| - 1] + [item]
    ensures |items| == 0 ==> r == [item]
  {
    var r := SpliceOne(items, FindIndex(items, item.id), item);
    assert FindIndex(items, item.id) == -1 && |items| > 0 ==> r == items[..|items| - 1] + [item];
    r
  }

  /** Only the first of several proposals with the same id is replaced. */
  lemma ReplaceFirstOnly(items: seq<Proposal>, item: Proposal, i: nat, j: nat)
    requires i < j < |items|
    requires items[i].id == item.id && items[j].id == item.id
    ensures Replace(items, item)[j] == items[j]
  {
  }

  /** After a replacement, looking the id up finds the new record, whether or
      not the id was there before. */
  lemma {:induction false} LookupAfterReplace(items: seq<Proposal>, item: Proposal)
    ensures Lookup(Replace(items, item), item.id) == Some(item)
  {
    var r := Replace(items, item);
    var k := FindIndex(items, item.id);
    if k >= 0 {
      assert r[k] == item;
      assert forall j :: 0 <= j < k ==> r[j].id != item.id;
      assert FindIndex(r, item.id) == k;
    } else if |items| > 0 {
      var n := |items| - 1;
      assert r[n] == item;
      assert forall j :: 0 <= j < n ==> r[j] == items[j];
      assert FindIndex(r, item.id) == n;
    }
  }

  /** Replacing an id that is present keeps every position's id, so lookups of
      every other id are unaffected. */
  lemma ReplaceKeepsIds(items: seq<Proposal>, item: Proposal, other: int)
    requires FindIndex(items, item.id) >= 0
    requires other != item.id
    ensures Ids(Replace(items, item)) == Ids(items)
    ensures Lookup(Replace(items, item), other) == Lookup(items, other)
  {
    var r := Replace(items, item);
    assert Ids(r) == Ids(items);
    var k := FindIndex(items, other);
    if k >= 0 {
      assert r[k] == items[k];
      assert FindIndex(r, other) == k;
    }
  }

  /** Replacing with the same record twice is the same as replacing once. */
  lemma {:induction false} ReplaceIdempotent(items: seq<Proposal>, item: Proposal)
    ensures Replace(Replace(items, item), item) == Replace(items, item)
  {
    var r := Replace(items, item);
    LookupAfterReplace(items, item);
    var k := FindIndex(r, item.id);
    assert r[k] == item;
    var r2 := Replace(r, item);
    assert |r2| == |r|;
    assert forall j :: 0 <= j < |r| ==> r2[j] == r[j];
  }

  /** A replacement brings in no proposal other than the item. */
  lemma ReplaceElements(items: seq<Proposal>, item: Proposal, p: Proposal)
    requires p in Replace(items, item)
    ensures p == item || p in items
  {
    var r := Replace(items, item);
    var j :| 0 <= j < |r| && r[j] == p;
    var k := FindIndex(items, item.id);
    if k >= 0 {
      if j != k {
        assert r[j] == items[j];
      }
    } else if |items| > 0 && j < |items| - 1 {
      assert r[j] == items[j];
    }
  }
}
