/**
 What the outbound and the DNS transport manager keep beside each other: a list of components, a table by
 tag, and for each tag the tags of the components that depend on it.
 */
module ComponentIndex {
  import opened Wrappers

  /** `serial` stands for the identity of the object: two components under one tag are different. */
  datatype Item = Item(tag: string, kind: string, dependencies: seq<string>, serial: nat)

  type Dependents = map<string, seq<string>>

  function Get(m: Dependents, d: string): seq<string> {
    if d in m then m[d] else []
  }

  // ---------- The list and the table ----------

  /** `common.Index` */
  function IndexOf(items: seq<Item>, item: Item): (i: int)
    ensures -1 <= i < |items|
    ensures i >= 0 ==> items[i] == item
    ensures i == -1 <==> item !in items
  {
    if items == [] then -1
    else if items[0] == item then 0
    else
      var i := IndexOf(items[1..], item);
      if i == -1 then -1 else i + 1
  }

  function Without(items: seq<Item>, i: nat): seq<Item>
    requires i < |items|
  {
    items[..i] + items[i + 1..]
  }

  ghost predicate DistinctTags(items: seq<Item>) {
    forall i, j :: 0 <= i < j < |items| ==> items[i].tag != items[j].tag
  }

  /** The list and the table hold the same components. */
  ghost predicate Consistent(items: seq<Item>, byTag: map<string, Item>) {
    && DistinctTags(items)
    && (forall t :: t in byTag ==> byTag[t] in items && byTag[t].tag == t)
    && (forall x :: x in items ==> x.tag in byTag && byTag[x.tag] == x)
  }

  lemma ConsistentAppend(items: seq<Item>, byTag: map<string, Item>, x: Item)
    requires Consistent(items, byTag) && x.tag !in byTag
    ensures Consistent(items + [x], byTag[x.tag := x])
  {
  }

  lemma ConsistentRemove(items: seq<Item>, byTag: map<string, Item>, i: nat)
    requires Consistent(items, byTag) && i < |items|
    ensures Consistent(Without(items, i), byTag - {items[i].tag})
    ensures forall x :: x in Without(items, i) <==> x in items && x != items[i]
  {
  }

  lemma ConsistentReplace(items: seq<Item>, byTag: map<string, Item>, i: nat, x: Item)
    requires Consistent(items, byTag) && i < |items| && items[i].tag == x.tag
    ensures Consistent(Without(items, i) + [x], byTag[x.tag := x])
  {
    ConsistentRemove(items, byTag, i);
    ConsistentAppend(Without(items, i), byTag - {x.tag}, x);
    assert (byTag - {x.tag})[x.tag := x] == byTag[x.tag := x];
  }

  // ---------- The reverse dependencies ----------

  function Count(dependencies: seq<string>, d: string): nat {
    if dependencies == [] then 0
    else Count(dependencies[..|dependencies| - 1], d) + if dependencies[|dependencies| - 1] == d then 1 else 0
  }

  lemma {:induction false} CountPositive(dependencies: seq<string>, d: string)
    ensures Count(dependencies, d) > 0 <==> d in dependencies
  {
    if dependencies != [] {
      CountPositive(dependencies[..|dependencies| - 1], d);
      assert dependencies == dependencies[..|dependencies| - 1] + [dependencies[|dependencies| - 1]];
    }
  }

  function Repeat(tag: string, n: nat): (r: seq<string>)
    ensures |r| == n && forall t :: t in r <==> n > 0 && t == tag
  {
    if n == 0 then [] else Repeat(tag, n - 1) + [tag]
  }

  function Link(m: Dependents, dependencies: seq<string>, tag: string): Dependents {
    if dependencies == [] then m
    else
      var before, d := Link(m, dependencies[..|dependencies| - 1], tag), dependencies[|dependencies| - 1];
      before[d := Get(before, d) + [tag]]
  }

  /** The loop at the end of `Create`. */
  method AddDependents(m: Dependents, dependencies: seq<string>, tag: string) returns (r: Dependents)
    ensures r == Link(m, dependencies, tag)
  {
    r := m;
    for i := 0 to |dependencies|
      invariant r == Link(m, dependencies[..i], tag)
    {
      assert dependencies[..i + 1][..i] == dependencies[..i];
      r := r[dependencies[i] := Get(r, dependencies[i]) + [tag]];
    }
    assert dependencies[..|dependencies|] == dependencies;
  }

  function Filtered(list: seq<string>, tag: string): (r: seq<string>)
    ensures forall t :: t in r <==> t in list && t != tag
    ensures |r| <= |list|
  {
    if list == [] then []
    else
      var init, last := list[..|list| - 1], list[|list| - 1];
      assert list == init + [last];
      Filtered(init, tag) + if last != tag then [last] else []
  }

  function UnlinkOne(m: Dependents, d: string, tag: string): Dependents {
    if |Get(m, d)| == 1 then m - {d} else m[d := Filtered(Get(m, d), tag)]
  }

  function Unlink(m: Dependents, dependencies: seq<string>, tag: string): Dependents {
    if dependencies == [] then m
    else UnlinkOne(Unlink(m, dependencies[..|dependencies| - 1], tag), dependencies[|dependencies| - 1], tag)
  }

  /** The loop at the end of `Remove`. */
  method DropDependents(m: Dependents, dependencies: seq<string>, tag: string) returns (r: Dependents)
    ensures r == Unlink(m, dependencies, tag)
  {
    r := m;
    for i := 0 to |dependencies|
      invariant r == Unlink(m, dependencies[..i], tag)
    {
      assert dependencies[..i + 1][..i] == dependencies[..i];
      var d := dependencies[i];
      if |Get(r, d)| == 1 {
        r := r - {d};
      } else {
        r := r[d := Filtered(Get(r, d), tag)];
      }
    }
    assert dependencies[..|dependencies|] == dependencies;
  }

  /** The tags that depend on `d`, in list order, one entry for each time `d` is listed. */
  function Entries(items: seq<Item>, d: string): seq<string> {
    if items == [] then []
    else
      Entries(items[..|items| - 1], d) +
      Repeat(items[|items| - 1].tag, Count(items[|items| - 1].dependencies, d))
  }

  ghost predicate Exact(items: seq<Item>, m: Dependents) {
    forall d :: Get(m, d) == Entries(items, d)
  }

  ghost predicate LiveDependent(items: seq<Item>, t: string, d: string) {
    exists x :: x in items && x.tag == t && d in x.dependencies
  }

  /** As sets: `m` names for each tag exactly the live components that depend on it. */
  ghost predicate ExactSets(items: seq<Item>, m: Dependents) {
    forall d, t :: t in Get(m, d) <==> LiveDependent(items, t, d)
  }

  lemma {:induction false} EntryMembers(items: seq<Item>, d: string, t: string)
    ensures t in Entries(items, d) <==> LiveDependent(items, t, d)
  {
    if items != [] {
      var init, last := items[..|items| - 1], items[|items| - 1];
      EntryMembers(init, d, t);
      CountPositive(last.dependencies, d);
      assert forall x :: x in items <==> x in init || x == last;
    }
  }

  lemma ExactIsExactSets(items: seq<Item>, m: Dependents)
    requires Exact(items, m)
    ensures ExactSets(items, m)
  {
    forall d, t ensures t in Get(m, d) <==> LiveDependent(items, t, d) { EntryMembers(items, d, t); }
  }

  lemma LinkLast(m: Dependents, init: seq<string>, last: string, tag: string, d: string)
    ensures Get(Link(m, init + [last], tag), d) == Get(Link(m, init, tag), d) + if last == d then [tag] else []
    ensures Repeat(tag, Count(init + [last], d)) == Repeat(tag, Count(init, d)) + if last == d then [tag] else []
  {
    assert (init + [last])[..|init|] == init;
  }

  lemma {:induction false} LinkAt(m: Dependents, dependencies: seq<string>, tag: string, d: string)
    ensures Get(Link(m, dependencies, tag), d) == Get(m, d) + Repeat(tag, Count(dependencies, d))
  {
    if dependencies != [] {
      var init, last := dependencies[..|dependencies| - 1], dependencies[|dependencies| - 1];
      assert dependencies == init + [last];
      LinkAt(m, init, tag, d);
      LinkLast(m, init, last, tag, d);
    }
  }

  lemma LinkKeepsExact(items: seq<Item>, m: Dependents, x: Item)
    requires Exact(items, m)
    ensures Exact(items + [x], Link(m, x.dependencies, x.tag))
  {
    forall d ensures Get(Link(m, x.dependencies, x.tag), d) == Entries(items + [x], d) {
      LinkAt(m, x.dependencies, x.tag, d);
      assert (items + [x])[..|items|] == items;
    }
  }

  // ---------- Removal ----------

  /** What `n` rounds of the removal loop make of one list. */
  function Rounds(list: seq<string>, tag: string, n: nat): seq<string> {
    if n == 0 then list
    else
      Round(Rounds(list, tag, n - 1), tag)
  }

  function Round(list: seq<string>, tag: string): seq<string> {
    if |list| == 1 then [] else Filtered(list, tag)
  }

  lemma UnlinkOneAt(m: Dependents, e: string, tag: string, d: string)
    ensures Get(UnlinkOne(m, e, tag), d) ==
            if e != d then Get(m, d) else Round(Get(m, d), tag)
  {
  }

  lemma UnlinkLast(m: Dependents, init: seq<string>, last: string, tag: string, d: string)
    ensures var before := Get(Unlink(m, init, tag), d);
            Get(Unlink(m, init + [last], tag), d) == if last != d then before else Round(before, tag)
    ensures Count(init + [last], d) == Count(init, d) + if last == d then 1 else 0
  {
    assert (init + [last])[..|init|] == init;
    UnlinkOneAt(Unlink(m, init, tag), last, tag, d);
  }

  lemma {:induction false} UnlinkAt(m: Dependents, dependencies: seq<string>, tag: string, d: string)
    ensures Get(Unlink(m, dependencies, tag), d) == Rounds(Get(m, d), tag, Count(dependencies, d))
  {
    if dependencies != [] {
      var init, last := dependencies[..|dependencies| - 1], dependencies[|dependencies| - 1];
      assert dependencies == init + [last];
      UnlinkAt(m, init, tag, d);
      UnlinkLast(m, init, last, tag, d);
    }
  }

  lemma FilteredLast(init: seq<string>, last: string, tag: string)
    ensures Filtered(init + [last], tag) == Filtered(init, tag) + if last != tag then [last] else []
  {
    assert (init + [last])[..|init|] == init;
  }

  lemma {:induction false} FilteredNothing(list: seq<string>, tag: string)
    requires tag !in list
    ensures Filtered(list, tag) == list
  {
    if list != [] {
      var init, last := list[..|list| - 1], list[|list| - 1];
      assert list == init + [last];
      FilteredNothing(init, tag);
      FilteredLast(init, last, tag);
    }
  }

  lemma FilteredTwice(list: seq<string>, tag: string)
    ensures Filtered(Filtered(list, tag), tag) == Filtered(list, tag)
  {
    FilteredNothing(Filtered(list, tag), tag);
  }

  lemma FilteredSingle(tag: string)
    ensures Filtered([tag], tag) == []
  {
  }

  /** A second round removes a single remaining entry, whoever it belongs to. */
  lemma {:induction false} RoundsMeaning(list: seq<string>, tag: string, n: nat)
    requires n >= 1 && |list| != 1
    ensures var f := Filtered(list, tag);
            Rounds(list, tag, n) == if n >= 2 && |f| == 1 then [] else f
  {
    if n > 1 {
      RoundsMeaning(list, tag, n - 1);
      RoundAgain(list, tag);
    } else {
      assert Rounds(list, tag, 0) == list;
    }
  }

  lemma RoundAgain(list: seq<string>, tag: string)
    ensures var f := Filtered(list, tag); Round(f, tag) == if |f| == 1 then [] else f
    ensures Round([], tag) == []
  {
    FilteredTwice(list, tag);
  }

  lemma {:induction false} FilteredAppend(a: seq<string>, b: seq<string>, tag: string)
    ensures Filtered(a + b, tag) == Filtered(a, tag) + Filtered(b, tag)
  {
    if b == [] {
      assert a + b == a;
    } else {
      var init := b[..|b| - 1];
      assert (a + b)[..|a + b| - 1] == a + init;
      FilteredAppend(a, init, tag);
    }
  }

  lemma {:induction false} FilteredRepeat(t: string, n: nat, tag: string)
    ensures Filtered(Repeat(t, n), tag) == if t == tag then [] else Repeat(t, n)
  {
    if n > 0 {
      FilteredRepeat(t, n - 1, tag);
      assert Repeat(t, n)[..n - 1] == Repeat(t, n - 1);
    }
  }

  lemma EntriesLast(init: seq<Item>, last: Item, d: string, tag: string)
    ensures var own := Repeat(last.tag, Count(last.dependencies, d));
            && Entries(init + [last], d) == Entries(init, d) + own
            && Filtered(Entries(init + [last], d), tag) ==
               Filtered(Entries(init, d), tag) + if last.tag == tag then [] else own
  {
    assert (init + [last])[..|init|] == init;
    FilteredAppend(Entries(init, d), Repeat(last.tag, Count(last.dependencies, d)), tag);
    FilteredRepeat(last.tag, Count(last.dependencies, d), tag);
  }

  lemma EntriesWithoutLast(init: seq<Item>, last: Item, d: string)
    requires forall x :: x in init ==> x.tag != last.tag
    ensures Entries(Without(init + [last], |init|), d) == Filtered(Entries(init + [last], d), last.tag)
  {
    assert Without(init + [last], |init|) == init;
    EntriesLast(init, last, d, last.tag);
    NotListed(init, d, last.tag);
  }

  lemma EntriesWithoutEarlier(init: seq<Item>, last: Item, i: nat, d: string)
    requires i < |init| && last.tag != init[i].tag
    requires Entries(Without(init, i), d) == Filtered(Entries(init, d), init[i].tag)
    ensures Entries(Without(init + [last], i), d) == Filtered(Entries(init + [last], d), init[i].tag)
  {
    assert Without(init + [last], i) == Without(init, i) + [last];
    EntriesLast(init, last, d, init[i].tag);
    EntriesLast(Without(init, i), last, d, init[i].tag);
  }

  lemma {:induction false} EntriesWithout(items: seq<Item>, i: nat, d: string)
    requires DistinctTags(items) && i < |items|
    ensures Entries(Without(items, i), d) == Filtered(Entries(items, d), items[i].tag)
  {
    var init, last := items[..|items| - 1], items[|items| - 1];
    assert items == init + [last];
    if i == |init| {
      EntriesWithoutLast(init, last, d);
    } else {
      EntriesWithout(init, i, d);
      EntriesWithoutEarlier(init, last, i, d);
    }
  }

  lemma NotListed(items: seq<Item>, d: string, tag: string)
    requires forall x :: x in items ==> x.tag != tag
    ensures Filtered(Entries(items, d), tag) == Entries(items, d)
  {
    EntryMembers(items, d, tag);
    FilteredNothing(Entries(items, d), tag);
  }

  lemma {:induction false} EntriesHold(items: seq<Item>, i: nat, d: string)
    requires i < |items|
    ensures |Entries(items, d)| >= Count(items[i].dependencies, d)
  {
    if i < |items| - 1 { EntriesHold(items[..|items| - 1], i, d); }
  }

  lemma RoundsOfList(list: seq<string>, tag: string, n: nat)
    requires (n > 0 <==> tag in list) && n <= |list|
    ensures var f := Filtered(list, tag);
            Rounds(list, tag, n) == if n >= 2 && |f| == 1 then [] else f
  {
    if n == 0 {
      FilteredNothing(list, tag);
    } else if |list| == 1 {
      assert list == [tag];
      FilteredSingle(tag);
      assert Rounds(list, tag, 0) == list;
    } else {
      RoundsMeaning(list, tag, n);
    }
  }

  lemma OwnEntries(items: seq<Item>, i: nat, d: string)
    requires DistinctTags(items) && i < |items|
    ensures items[i].tag in Entries(items, d) <==> Count(items[i].dependencies, d) > 0
  {
    CountPositive(items[i].dependencies, d);
    EntryMembers(items, d, items[i].tag);
    assert items[i] in items;
    if x :| x in items && x.tag == items[i].tag && d in x.dependencies {
      var k :| 0 <= k < |items| && items[k] == x;
    }
  }

  /** What the removal of `items[i]` leaves under `d`: the others' entries, or nothing. */
  lemma RoundsAtRemoval(items: seq<Item>, i: nat, m: Dependents, d: string)
    requires DistinctTags(items) && Exact(items, m) && i < |items|
    ensures var rest := Entries(Without(items, i), d);
            Get(Unlink(m, items[i].dependencies, items[i].tag), d) ==
            if Count(items[i].dependencies, d) >= 2 && |rest| == 1 then [] else rest
  {
    UnlinkAt(m, items[i].dependencies, items[i].tag, d);
    EntriesWithout(items, i, d);
    EntriesHold(items, i, d);
    OwnEntries(items, i, d);
    RoundsOfList(Entries(items, d), items[i].tag, Count(items[i].dependencies, d));
  }

  /** No dependency that `items[i]` lists twice has exactly one entry by others. */
  ghost predicate SafeToRemove(items: seq<Item>, i: nat)
    requires i < |items|
  {
    forall d :: Count(items[i].dependencies, d) >= 2 ==> |Entries(Without(items, i), d)| != 1
  }

  /** Removal keeps the index right exactly when `SafeToRemove`; otherwise a live dependent is forgotten. */
  lemma UnlinkExactIff(items: seq<Item>, i: nat, m: Dependents)
    requires DistinctTags(items) && Exact(items, m) && i < |items|
    ensures var r := Unlink(m, items[i].dependencies, items[i].tag);
            && (Exact(Without(items, i), r) <==> SafeToRemove(items, i))
            && (ExactSets(Without(items, i), r) <==> SafeToRemove(items, i))
  {
    var rest, r := Without(items, i), Unlink(m, items[i].dependencies, items[i].tag);
    forall d
      ensures Get(r, d) ==
              if Count(items[i].dependencies, d) >= 2 && |Entries(rest, d)| == 1 then [] else Entries(rest, d)
    {
      RoundsAtRemoval(items, i, m, d);
    }
    if SafeToRemove(items, i) {
      assert Exact(rest, r);
      ExactIsExactSets(rest, r);
    } else {
      var d :| Count(items[i].dependencies, d) >= 2 && |Entries(rest, d)| == 1;
      assert Get(r, d) == [];
      var t := Entries(rest, d)[0];
      assert t in Entries(rest, d) && t !in Get(r, d);
      EntryMembers(rest, d, t);
    }
  }

  /** In particular, components that list no dependency twice are always safe to remove. */
  lemma DuplicateFreeIsSafe(items: seq<Item>, i: nat)
    requires i < |items|
    requires forall j, k :: 0 <= j < k < |items[i].dependencies| ==>
               items[i].dependencies[j] != items[i].dependencies[k]
    ensures SafeToRemove(items, i)
  {
    forall d ensures Count(items[i].dependencies, d) <= 1 { CountDistinct(items[i].dependencies, d); }
  }

  lemma {:induction false} CountDistinct(dependencies: seq<string>, d: string)
    requires forall j, k :: 0 <= j < k < |dependencies| ==> dependencies[j] != dependencies[k]
    ensures Count(dependencies, d) <= 1
  {
    if dependencies != [] {
      var init := dependencies[..|dependencies| - 1];
      CountDistinct(init, d);
      CountPositive(init, d);
      if d in init { var k :| 0 <= k < |init| && init[k] == d; }
    }
  }
}
