/** Evaluating a path on a tree of items: which item the backtracking search finds. */
module QmlPathEval {
  import opened Common
  import opened QmlPathSyntax

  /** An item with its direct children, the item held in its `contentItem` property, and the class name left after
      the generated prefixes and suffixes have been stripped. */
  datatype Item = Item(
    name: string,
    className: string,
    properties: map<string, string>,
    children: seq<Item>,
    content: Option<Item>)

  // ---- the tree ----

  function Size(item: Item): (n: nat)
    ensures n > 0
    decreases item, 1
  {
    1 + SizeAll(item.children) + if item.content.Some? then Size(item.content.value) else 0
  }

  function SizeAll(items: seq<Item>): nat
    decreases items, 0
  {
    if items == [] then 0 else Size(items[0]) + SizeAll(items[1..])
  }

  lemma {:induction false} SizeAppend(a: seq<Item>, b: seq<Item>)
    ensures SizeAll(a + b) == SizeAll(a) + SizeAll(b)
    decreases |a|
  {
    if a == [] {
      assert a + b == b;
    } else {
      assert (a + b)[1..] == a[1..] + b;
      SizeAppend(a[1..], b);
    }
  }

  lemma {:induction false} SizeMember(items: seq<Item>, x: Item)
    requires x in items
    ensures Size(x) <= SizeAll(items)
    decreases |items|
  {
    if x != items[0] {
      SizeMember(items[1..], x);
    }
  }

  /** Direct children, then those of the content item. */
  function Children(item: Item): (r: seq<Item>)
    ensures SizeAll(r) < Size(item)
  {
    if item.content.None? then item.children
    else
      SizeAppend(item.children, Children(item.content.value));
      item.children + Children(item.content.value)
  }

  /** Items of a given name below an item, in depth-first order. */
  function Find(item: Item, key: string): seq<Item>
    decreases Size(item), 0
  {
    FindBelow(Children(item), key)
  }

  function FindBelow(items: seq<Item>, key: string): seq<Item>
    decreases SizeAll(items), 1
  {
    if items == [] then []
    else (if items[0].name == key then [items[0]] else []) + Find(items[0], key) + FindBelow(items[1..], key)
  }

  // ---- one block ----

  function Named(items: seq<Item>, key: string): seq<Item>
  {
    if items == [] then []
    else Named(items[..|items| - 1], key) + if items[|items| - 1].name == key then [items[|items| - 1]] else []
  }

  function FindAll(items: seq<Item>, key: string): seq<Item>
  {
    if items == [] then [] else FindAll(items[..|items| - 1], key) + Find(items[|items| - 1], key)
  }

  predicate HasProperty(item: Item, name: string, expected: Option<string>)
  {
    if name == "className" && expected.Some? then item.className == expected.value
    else name in item.properties && (expected.Some? ==> item.properties[name] == expected.value)
  }

  function Keep(items: seq<Item>, name: string, expected: Option<string>): seq<Item>
  {
    if items == [] then []
    else Keep(items[..|items| - 1], name, expected)
         + if HasProperty(items[|items| - 1], name, expected) then [items[|items| - 1]] else []
  }

  function ApplyFilter(items: seq<Item>, f: Filter): seq<Item>
  {
    match f
    case Index(n) => if n < |items| then [items[n]] else []
    case Property(name, expected) => Keep(items, name, expected)
  }

  function ApplyFilters(items: seq<Item>, fs: seq<Filter>): seq<Item>
  {
    if fs == [] then items else ApplyFilter(ApplyFilters(items, fs[..|fs| - 1]), fs[|fs| - 1])
  }

  function Candidates(items: seq<Item>, b: Block): seq<Item>
  {
    if b.key == "" then items
    else Named(items, b.key) + if b.nested then FindAll(items, b.key) else []
  }

  /** The items a block selects, in search order. */
  function Select(items: seq<Item>, b: Block): seq<Item>
  {
    ApplyFilters(Candidates(items, b), b.filters)
  }

  // ---- evaluation ----

  function Eval(current: Option<Item>, items: seq<Item>, blocks: seq<Block>): Option<Item>
    decreases |blocks|, 1, 0
  {
    if blocks == [] then current
    else if items == [] then None
    else EvalEach(Select(items, blocks[0]), blocks[1..])
  }

  /** The first of `results` from which the remaining blocks can be matched. */
  function EvalEach(results: seq<Item>, blocks: seq<Block>): Option<Item>
    decreases |blocks| + 1, 0, |results|
  {
    if results == [] then None
    else
      var found := Eval(Some(results[0]), Children(results[0]), blocks);
      if found.Some? then found else EvalEach(results[1..], blocks)
  }

  // ---- chains ----

  /** A chain picks, for each block, the position of one selected item; the next block starts from its children. */
  predicate IsChain(items: seq<Item>, blocks: seq<Block>, chain: seq<nat>)
    decreases |blocks|
  {
    if blocks == [] then chain == []
    else
      var selected := Select(items, blocks[0]);
      && chain != []
      && chain[0] < |selected|
      && IsChain(Children(selected[chain[0]]), blocks[1..], chain[1..])
  }

  function End(items: seq<Item>, blocks: seq<Block>, chain: seq<nat>): Item
    requires blocks != [] && IsChain(items, blocks, chain)
    decreases |blocks|
  {
    var item := Select(items, blocks[0])[chain[0]];
    if |blocks| == 1 then item else End(Children(item), blocks[1..], chain[1..])
  }

  /** Search order: earlier picks come first, and decide from the first block on. */
  predicate Before(a: seq<nat>, b: seq<nat>)
  {
    a == [] || (b != [] && (a[0] < b[0] || (a[0] == b[0] && Before(a[1..], b[1..]))))
  }

  ghost predicate IsFirst(items: seq<Item>, blocks: seq<Block>, chain: seq<nat>)
  {
    IsChain(items, blocks, chain) && forall other | IsChain(items, blocks, other) :: Before(chain, other)
  }

  lemma ChainStep(items: seq<Item>, blocks: seq<Block>, i: nat, tail: seq<nat>)
    requires blocks != [] && i < |Select(items, blocks[0])|
    ensures IsChain(items, blocks, [i] + tail)
       <==> IsChain(Children(Select(items, blocks[0])[i]), blocks[1..], tail)
  {
    assert ([i] + tail)[1..] == tail;
  }

  lemma {:induction false} EvalSearches(items: seq<Item>, blocks: seq<Block>) returns (chain: seq<nat>)
    requires blocks != []
    ensures match Eval(None, items, blocks)
            case Some(x) => IsFirst(items, blocks, chain) && End(items, blocks, chain) == x
            case None => forall other :: !IsChain(items, blocks, other)
    decreases |blocks|, 1, 0
  {
    if items == [] {
      NothingSelected(blocks[0]);
      chain := [];
    } else {
      chain := EachSearches(items, blocks, 0);
      assert Select(items, blocks[0])[0..] == Select(items, blocks[0]);
    }
  }

  /** The search over selected items from position `i` on. */
  lemma {:induction false} EachSearches(items: seq<Item>, blocks: seq<Block>, i: nat) returns (chain: seq<nat>)
    requires blocks != [] && i <= |Select(items, blocks[0])|
    ensures var selected := Select(items, blocks[0]);
            match EvalEach(selected[i..], blocks[1..])
            case Some(x) =>
              && IsChain(items, blocks, chain) && chain[0] >= i && End(items, blocks, chain) == x
              && forall other | IsChain(items, blocks, other) && other[0] >= i :: Before(chain, other)
            case None => forall other | IsChain(items, blocks, other) :: other[0] < i
    decreases |blocks|, 0, |Select(items, blocks[0])| - i
  {
    var selected, rest := Select(items, blocks[0]), blocks[1..];
    if i == |selected| {
      assert selected[i..] == [];
      chain := [];
      forall other | IsChain(items, blocks, other) ensures other[0] < i {
      }
    } else {
      var item := selected[i];
      assert selected[i..][0] == item && selected[i..][1..] == selected[i + 1..];
      if rest == [] {
        assert EvalEach(selected[i..], rest).Some?;
        chain := [i];
        assert chain[1..] == [];
      } else {
        var tail := EvalSearches(Children(item), rest);
        CurrentIrrelevant(Some(item), Children(item), rest);
        if Eval(None, Children(item), rest).Some? {
          assert EvalEach(selected[i..], rest).Some?;
          chain := [i] + tail;
          ChainStep(items, blocks, i, tail);
          assert chain[1..] == tail;
          forall other | IsChain(items, blocks, other) && other[0] >= i ensures Before(chain, other) {
            if other[0] == i {
              assert IsChain(Children(item), rest, other[1..]);
            }
          }
        } else {
          chain := EachSearches(items, blocks, i + 1);
          assert EvalEach(selected[i..], rest) == EvalEach(selected[i + 1..], rest);
          forall other | IsChain(items, blocks, other) ensures other[0] != i {
            NoChainThrough(items, blocks, i, other);
          }
          assert EvalEach(selected[i..], rest).None? ==>
            forall other | IsChain(items, blocks, other) :: other[0] < i + 1;
        }
      }
    }
  }

  lemma NoChainThrough(items: seq<Item>, blocks: seq<Block>, i: nat, other: seq<nat>)
    requires blocks != [] && i < |Select(items, blocks[0])| && IsChain(items, blocks, other)
    requires !IsChain(Children(Select(items, blocks[0])[i]), blocks[1..], other[1..])
    ensures other[0] != i
  {
  }

  lemma CurrentIrrelevant(current: Option<Item>, items: seq<Item>, blocks: seq<Block>)
    requires blocks != []
    ensures Eval(current, items, blocks) == Eval(None, items, blocks)
  {
  }

  lemma {:induction false} FiltersOfNothing(fs: seq<Filter>)
    ensures ApplyFilters([], fs) == []
    decreases |fs|
  {
    if fs != [] {
      FiltersOfNothing(fs[..|fs| - 1]);
    }
  }

  lemma NothingSelected(b: Block)
    ensures Select([], b) == []
  {
    FiltersOfNothing(b.filters);
    assert Candidates([], b) == [];
  }

  // ---- what a block looks at ----

  /** `x` is a child of `item`, or of something below it. */
  ghost predicate Below(x: Item, item: Item)
    decreases Size(item), 0
  {
    AmongOrBelow(x, Children(item))
  }

  /** `x` is one of the items, or below one of them. */
  ghost predicate AmongOrBelow(x: Item, items: seq<Item>)
    decreases SizeAll(items), 1
  {
    items != [] && (items[0] == x || Below(x, items[0]) || AmongOrBelow(x, items[1..]))
  }

  lemma {:induction false} AmongOrBelowMeaning(x: Item, items: seq<Item>)
    ensures AmongOrBelow(x, items) <==> x in items || exists i :: 0 <= i < |items| && Below(x, items[i])
    decreases |items|
  {
    if items != [] {
      var tail := items[1..];
      AmongOrBelowMeaning(x, tail);
      assert forall i :: 0 <= i < |tail| ==> tail[i] == items[i + 1];
      if i :| 0 <= i < |items| && Below(x, items[i]) {
        assert i == 0 || items[i] == tail[i - 1];
      }
    }
  }

  lemma {:induction false} FindBelowMeaning(items: seq<Item>, key: string, x: Item)
    ensures x in FindBelow(items, key) <==> x.name == key && AmongOrBelow(x, items)
    decreases SizeAll(items), 1
  {
    if items != [] {
      FindMeaning(items[0], key, x);
      FindBelowMeaning(items[1..], key, x);
    }
  }

  /** A search finds exactly the items of that name below the starting item. */
  lemma {:induction false} FindMeaning(item: Item, key: string, x: Item)
    ensures x in Find(item, key) <==> x.name == key && Below(x, item)
    decreases Size(item), 0
  {
    FindBelowMeaning(Children(item), key, x);
  }

  lemma {:induction false} NamedMeaning(items: seq<Item>, key: string, x: Item)
    ensures x in Named(items, key) <==> x in items && x.name == key
    ensures x in FindAll(items, key) <==> x.name == key && exists i :: 0 <= i < |items| && Below(x, items[i])
    decreases |items|
  {
    if items != [] {
      var front := items[..|items| - 1];
      NamedMeaning(front, key, x);
      FindMeaning(items[|items| - 1], key, x);
      assert items == front + [items[|items| - 1]];
      assert forall i :: 0 <= i < |front| ==> front[i] == items[i];
      if i :| 0 <= i < |items| && Below(x, items[i]) {
        assert i == |front| || items[i] == front[i];
      }
    }
  }

  /** Before filtering, a block offers exactly the items its documentation promises. */
  lemma CandidatesMeaning(items: seq<Item>, b: Block, x: Item)
    ensures x in Candidates(items, b)
       <==> if b.key == "" then x in items
            else x.name == b.key && (x in items || (b.nested && exists i :: 0 <= i < |items| && Below(x, items[i])))
  {
    NamedMeaning(items, b.key, x);
  }

  /** A property filter keeps exactly the items that have the property, and the value if one is asked for. */
  lemma {:induction false} KeepMeaning(items: seq<Item>, name: string, expected: Option<string>, x: Item)
    ensures x in Keep(items, name, expected) <==> x in items && HasProperty(x, name, expected)
    ensures |Keep(items, name, expected)| <= |items|
    decreases |items|
  {
    if items != [] {
      KeepMeaning(items[..|items| - 1], name, expected, x);
      assert items == items[..|items| - 1] + [items[|items| - 1]];
    }
  }

  /** The search returns the end of the first chain in search order, and nothing only if there is no chain. */
  lemma EvaluationIsExact(items: seq<Item>, blocks: seq<Block>)
    requires blocks != []
    ensures Eval(None, items, blocks).None? <==> forall chain :: !IsChain(items, blocks, chain)
    ensures Eval(None, items, blocks).Some? ==>
              exists chain :: IsFirst(items, blocks, chain)
                              && End(items, blocks, chain) == Eval(None, items, blocks).value
  {
    var chain := EvalSearches(items, blocks);
    if Eval(None, items, blocks).Some? {
      assert exists c :: IsChain(items, blocks, c) by {
        assert IsChain(items, blocks, chain);
      }
    }
  }

  // ---- the evaluator ----

  method FilterByProperty(items: seq<Item>, name: string, expected: Option<string>) returns (kept: seq<Item>)
    ensures kept == Keep(items, name, expected)
  {
    kept := [];
    for i := 0 to |items|
      invariant kept == Keep(items[..i], name, expected)
    {
      var item := items[i];
      assert items[..i + 1][..i] == items[..i];
      if name == "className" && expected.Some? {
        if item.className == expected.value {
          kept := kept + [item];
        }
      } else if name in item.properties && (expected.None? || item.properties[name] == expected.value) {
        kept := kept + [item];
      }
    }
    assert items[..|items|] == items;
  }

  method SelectItems(items: seq<Item>, b: Block) returns (results: seq<Item>)
    ensures results == Select(items, b)
  {
    results := [];
    if b.key == "" {
      results := items;
    } else {
      for i := 0 to |items|
        invariant results == Named(items[..i], b.key)
      {
        assert items[..i + 1][..i] == items[..i];
        if items[i].name == b.key {
          results := results + [items[i]];
        }
      }
      assert items[..|items|] == items;
      if b.nested {
        var found: seq<Item> := [];
        for i := 0 to |items|
          invariant found == FindAll(items[..i], b.key)
        {
          assert items[..i + 1][..i] == items[..i];
          found := found + Find(items[i], b.key);
        }
        results := results + found;
      }
    }
    ghost var candidates := Candidates(items, b);
    for j := 0 to |b.filters|
      invariant results == ApplyFilters(candidates, b.filters[..j])
    {
      assert b.filters[..j + 1][..j] == b.filters[..j];
      match b.filters[j] {
        case Index(n) => results := if n < |results| then [results[n]] else [];
        case Property(name, expected) => results := FilterByProperty(results, name, expected);
      }
    }
    assert b.filters[..|b.filters|] == b.filters;
  }

  method EvaluateItems(current: Option<Item>, items: seq<Item>, blocks: seq<Block>) returns (found: Option<Item>)
    ensures found == Eval(current, items, blocks)
    decreases |blocks|
  {
    if blocks == [] {
      return current;
    }
    if items == [] {
      return None;
    }
    var results := SelectItems(items, blocks[0]);
    assert results[0..] == results;
    for i := 0 to |results|
      invariant Eval(current, items, blocks) == EvalEach(results[i..], blocks[1..])
    {
      assert results[i..][1..] == results[i + 1..];
      found := EvaluateItems(Some(results[i]), Children(results[i]), blocks[1..]);
      if found.Some? {
        return;
      }
    }
    found := None;
  }
}
