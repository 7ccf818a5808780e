/** Which item a path selects: filters and searches by position, in the order of the tree. */
module QmlPathOrder {
  import opened Common
  import opened QmlPathSyntax
  import opened QmlPathEval

  // ---- lists as positions ----

  ghost predicate Increasing(ps: seq<nat>)
  {
    forall i, j :: 0 <= i < j < |ps| ==> ps[i] < ps[j]
  }

  /** The list holds the items at these positions, in order. */
  ghost predicate Lists(r: seq<Item>, items: seq<Item>, ps: seq<nat>)
  {
    |r| == |ps| && Increasing(ps) && forall j :: 0 <= j < |ps| ==> ps[j] < |items| && r[j] == items[ps[j]]
  }

  lemma ListsAppend(r: seq<Item>, items: seq<Item>, ps: seq<nat>, p: nat)
    requires Lists(r, items, ps) && p < |items| && forall q <- ps :: q < p
    ensures Lists(r + [items[p]], items, ps + [p])
  {
    forall j | 0 <= j < |ps| ensures (ps + [p])[j] < p {
      assert ps[j] in ps;
    }
  }

  lemma ListsLonger(r: seq<Item>, items: seq<Item>, longer: seq<Item>, ps: seq<nat>)
    requires Lists(r, items, ps) && items <= longer
    ensures Lists(r, longer, ps)
  {
  }

  lemma {:induction false} NamedLists(items: seq<Item>, key: string) returns (ps: seq<nat>)
    ensures Lists(Named(items, key), items, ps)
    ensures forall i: nat :: i in ps <==> i < |items| && items[i].name == key
    decreases |items|
  {
    if items == [] {
      ps := [];
    } else {
      var n := |items| - 1;
      var before := NamedLists(items[..n], key);
      ps := NamedStep(items, key, n, before);
    }
  }

  lemma NamedStep(items: seq<Item>, key: string, n: nat, before: seq<nat>) returns (ps: seq<nat>)
    requires |items| == n + 1 && Lists(Named(items[..n], key), items[..n], before)
    requires forall i: nat :: i in before <==> i < n && items[..n][i].name == key
    ensures Lists(Named(items, key), items, ps)
    ensures forall i: nat :: i in ps <==> i < |items| && items[i].name == key
  {
    ps := before;
    ListsLonger(Named(items[..n], key), items[..n], items, ps);
    if items[n].name == key {
      ListsAppend(Named(items[..n], key), items, ps, n);
      ps := ps + [n];
    }
  }

  lemma {:induction false} KeepLists(r: seq<Item>, items: seq<Item>, ps: seq<nat>, name: string,
                                     expected: Option<string>) returns (kept: seq<nat>)
    requires Lists(r, items, ps)
    ensures Lists(Keep(r, name, expected), items, kept)
    ensures forall i: nat :: i in kept <==> i in ps && HasProperty(items[i], name, expected)
    decreases |r|
  {
    if r == [] {
      kept := [];
    } else {
      var n := |r| - 1;
      var front := ps[..n];
      kept := KeepLists(r[..n], items, front, name, expected);
      assert ps == front + [ps[n]];
      forall q | q in kept ensures q < ps[n] {
        var j :| 0 <= j < n && front[j] == q;
      }
      if HasProperty(r[n], name, expected) {
        ListsAppend(Keep(r[..n], name, expected), items, kept, ps[n]);
        kept := kept + [ps[n]];
      }
    }
  }

  /** A class name is compared with the item's; any other property has to be there, with the value if one is given. */
  lemma PropertyMeaning(item: Item, name: string, expected: Option<string>)
    ensures name == "className" && expected.Some? ==>
              (HasProperty(item, name, expected) <==> expected == Some(item.className))
    ensures name != "className" && expected.Some? ==>
              (HasProperty(item, name, expected) <==> name in item.properties
                                                      && expected == Some(item.properties[name]))
    ensures expected.None? ==> (HasProperty(item, name, expected) <==> name in item.properties)
  {
  }

  // ---- positions selected ----

  /** The positions before this one, and how many they are. */
  function Earlier(ps: set<nat>, p: nat): set<nat> { set q | q in ps && q < p }

  function Rank(ps: set<nat>, p: nat): nat { |Earlier(ps, p)| }

  /** Positions of the name (of any name if the key is empty) that pass the filters in turn; an index filter leaves the
      position that has exactly that many before it. */
  function Positions(items: seq<Item>, key: string, fs: seq<Filter>): set<nat>
  {
    if fs == [] then set i: nat | i < |items| && (key == "" || items[i].name == key)
    else
      var before := Positions(items, key, fs[..|fs| - 1]);
      match fs[|fs| - 1]
      case Index(n) => set p | p in before && Rank(before, p) == n
      case Property(name, expected) => set p | p in before && p < |items| && HasProperty(items[p], name, expected)
  }

  function SetOf(ps: seq<nat>): set<nat> { set p | p in ps }

  lemma {:induction false} SetOfIncreasing(ps: seq<nat>)
    requires Increasing(ps)
    ensures |SetOf(ps)| == |ps|
    decreases |ps|
  {
    if ps != [] {
      var n := |ps| - 1;
      SetOfIncreasing(ps[..n]);
      assert ps == ps[..n] + [ps[n]];
      assert SetOf(ps) == SetOf(ps[..n]) + {ps[n]};
      assert ps[n] !in ps[..n];
    }
  }

  /** The rank of a listed position is its place in the list. */
  lemma RankIsPlace(ps: seq<nat>, j: nat)
    requires Increasing(ps) && j < |ps|
    ensures Rank(SetOf(ps), ps[j]) == j
  {
    SetOfIncreasing(ps[..j]);
    forall q: nat ensures q in ps[..j] <==> q in ps && q < ps[j] {
      if q in ps && q < ps[j] {
        var i :| 0 <= i < |ps| && ps[i] == q;
        assert i < j;
        assert ps[..j][i] == q;
      }
      if q in ps[..j] {
        var i :| 0 <= i < j && ps[..j][i] == q;
        assert ps[i] == q;
      }
    }
    assert Earlier(SetOf(ps), ps[j]) == SetOf(ps[..j]);
  }

  /** An index filter keeps the position of that rank, if there is one. */
  lemma IndexLists(r: seq<Item>, items: seq<Item>, ps: seq<nat>, n: nat) returns (kept: seq<nat>)
    requires Lists(r, items, ps)
    ensures Lists(ApplyFilter(r, Index(n)), items, kept)
    ensures SetOf(kept) == set p | p in SetOf(ps) && Rank(SetOf(ps), p) == n
  {
    kept := if n < |ps| then [ps[n]] else [];
    var all := SetOf(ps);
    forall p: nat ensures p in kept <==> p in ps && Rank(all, p) == n {
      if p in ps {
        var j :| 0 <= j < |ps| && ps[j] == p;
        RankIsPlace(ps, j);
      }
      if n < |ps| {
        RankIsPlace(ps, n);
      }
    }
  }

  lemma {:induction false} SelectedLists(items: seq<Item>, key: string, fs: seq<Filter>) returns (ps: seq<nat>)
    ensures Lists(Select(items, Block(false, key, fs)), items, ps)
    ensures SetOf(ps) == Positions(items, key, fs)
    decreases |fs|
  {
    var b := Block(false, key, fs);
    if fs == [] {
      if key == "" {
        ps := seq(|items|, i => i);
        assert forall i: nat :: i in ps <==> i < |items| by {
          forall i: nat | i < |items| ensures i in ps {
            assert ps[i] == i;
          }
        }
      } else {
        ps := NamedLists(items, key);
        assert Candidates(items, b) == Named(items, key);
      }
    } else {
      var front, last := fs[..|fs| - 1], fs[|fs| - 1];
      var before := SelectedLists(items, key, front);
      var r := Select(items, Block(false, key, front));
      assert Select(items, b) == ApplyFilter(r, last);
      match last {
        case Index(n) => ps := IndexLists(r, items, before, n);
        case Property(name, expected) =>
          ps := KeepLists(r, items, before, name, expected);
          ListedPositions(r, items, before);
      }
    }
  }

  lemma ListedPositions(r: seq<Item>, items: seq<Item>, ps: seq<nat>)
    requires Lists(r, items, ps)
    ensures forall p <- ps :: p < |items|
  {
  }

  /** A block that searches among the items themselves selects the item at each of its positions, in order: the one
      with `j` others before it comes `j`-th. */
  lemma SelectionByPosition(items: seq<Item>, key: string, fs: seq<Filter>, p: nat)
    ensures var ps, r := Positions(items, key, fs), Select(items, Block(false, key, fs));
            && |r| == |ps|
            && (p in ps ==> p < |items| && Rank(ps, p) < |r| && r[Rank(ps, p)] == items[p])
  {
    var list := SelectedLists(items, key, fs);
    SetOfIncreasing(list);
    ListedPositions(Select(items, Block(false, key, fs)), items, list);
    if p in list {
      var j :| 0 <= j < |list| && list[j] == p;
      RankIsPlace(list, j);
    }
  }

  lemma {:induction false} RankExists(ps: set<nat>, n: nat) returns (p: nat)
    requires n < |ps|
    ensures p in ps && Rank(ps, p) == n
    decreases |ps|
  {
    var m := Largest(ps);
    var rest := ps - {m};
    if n == |rest| {
      p := m;
      assert Earlier(ps, m) == rest;
    } else {
      p := RankExists(rest, n);
      assert Earlier(ps, p) == Earlier(rest, p);
    }
  }

  lemma {:induction false} Largest(ps: set<nat>) returns (m: nat)
    requires ps != {}
    ensures m in ps && forall q <- ps :: q <= m
    decreases |ps|
  {
    var some :| some in ps;
    var rest := ps - {some};
    m := some;
    if rest != {} {
      var other := Largest(rest);
      m := if other > some then other else some;
    }
    forall q | q in ps ensures q <= m {
      assert q == some || q in rest;
    }
  }

  /** A single block that ends in an index finds the item of its name and filters that has exactly that many such items
      before it, and nothing if there are not that many. */
  lemma IndexPicks(items: seq<Item>, key: string, fs: seq<Filter>, n: nat)
    ensures var ps, found := Positions(items, key, fs), Eval(None, items, [Block(false, key, fs + [Index(n)])]);
            if |ps| <= n then found == None
            else exists p :: p in ps && p < |items| && Rank(ps, p) == n && found == Some(items[p])
  {
    var ps, b := Positions(items, key, fs), Block(false, key, fs + [Index(n)]);
    assert (fs + [Index(n)])[..|fs|] == fs;
    var picked := Positions(items, key, fs + [Index(n)]);
    assert picked == set p | p in ps && Rank(ps, p) == n;
    if items == [] {
      var list := SelectedLists(items, key, fs);
      ListedPositions(Select(items, Block(false, key, fs)), items, list);
      assert ps == {};
    } else if |ps| <= n {
      forall p | p in ps ensures Rank(ps, p) != n {
        assert Earlier(ps, p) < ps by {
          assert p in ps && p !in Earlier(ps, p);
        }
        SmallerSet(Earlier(ps, p), ps);
      }
      assert picked == {};
      SelectionByPosition(items, key, fs + [Index(n)], 0);
    } else {
      var p := RankExists(ps, n);
      assert picked == {p} by {
        forall q | q in picked ensures q == p {
          SameRank(ps, p, q);
        }
      }
      assert Earlier(picked, p) == {};
      FoundFirst(items, key, fs + [Index(n)], p);
    }
  }

  lemma SmallerSet(a: set<nat>, b: set<nat>)
    requires a < b
    ensures |a| < |b|
  {
    assert |b - a| > 0 && b == a + (b - a);
  }

  lemma SameRank(ps: set<nat>, p: nat, q: nat)
    requires p in ps && q in ps && Rank(ps, p) == Rank(ps, q)
    ensures p == q
  {
    var a, b := Earlier(ps, p), Earlier(ps, q);
    if p < q {
      assert a < b by {
        assert p in b && p !in a;
      }
      SmallerSet(a, b);
    } else if q < p {
      assert b < a by {
        assert q in a && q !in b;
      }
      SmallerSet(b, a);
    }
  }

  /** The first item selected is found. */
  lemma FoundFirst(items: seq<Item>, key: string, fs: seq<Filter>, p: nat)
    requires items != [] && p in Positions(items, key, fs) && Rank(Positions(items, key, fs), p) == 0
    ensures p < |items| && Eval(None, items, [Block(false, key, fs)]) == Some(items[p])
  {
    SelectionByPosition(items, key, fs, p);
    var b := Block(false, key, fs);
    var r := Select(items, b);
    assert [b][1..] == [];
    assert Eval(Some(r[0]), Children(r[0]), []) == Some(r[0]);
    assert EvalEach(r, []) == Some(r[0]);
  }

  // ---- the order of a search ----

  /** Where an item is: a place among the items, then a place among the children, and so on down. */
  type Address = seq<nat>

  function At(items: seq<Item>, a: Address): Option<Item>
    decreases |a|
  {
    if a == [] || a[0] >= |items| then None
    else if |a| == 1 then Some(items[a[0]])
    else At(Children(items[a[0]]), a[1..])
  }

  /** In reading order: an item comes before what is below it, and that before the next item. */
  predicate ComesBefore(a: Address, b: Address)
  {
    b != [] && (a == [] || a[0] < b[0] || (a[0] == b[0] && ComesBefore(a[1..], b[1..])))
  }

  ghost predicate InOrder(addresses: seq<Address>)
  {
    forall i, j :: 0 <= i < j < |addresses| ==> ComesBefore(addresses[i], addresses[j])
  }

  /** The items found are the ones at these addresses, in order. */
  ghost predicate Located(found: seq<Item>, items: seq<Item>, addresses: seq<Address>)
  {
    && |found| == |addresses| && InOrder(addresses)
    && forall j :: 0 <= j < |addresses| ==> At(items, addresses[j]) == Some(found[j])
  }

  ghost predicate NamedAt(items: seq<Item>, key: string, a: Address)
  {
    At(items, a).Some? && At(items, a).value.name == key
  }

  function Under(place: nat, addresses: seq<Address>): (r: seq<Address>)
    ensures |r| == |addresses| && forall j :: 0 <= j < |r| ==> r[j] == [place] + addresses[j]
    ensures forall a :: a in r <==> a != [] && a[0] == place && a[1..] in addresses
  {
    var r := seq(|addresses|, j requires 0 <= j < |addresses| => [place] + addresses[j]);
    UnderMembers(place, addresses, r);
    r
  }

  lemma UnderMembers(place: nat, addresses: seq<Address>, r: seq<Address>)
    requires |r| == |addresses| && forall j :: 0 <= j < |r| ==> r[j] == [place] + addresses[j]
    ensures forall a :: a in r <==> a != [] && a[0] == place && a[1..] in addresses
  {
    forall a: Address ensures a in r <==> a != [] && a[0] == place && a[1..] in addresses {
      if a in r {
        var j :| 0 <= j < |r| && r[j] == a;
        assert a[1..] == addresses[j];
      }
      if a != [] && a[0] == place && a[1..] in addresses {
        var j :| 0 <= j < |addresses| && addresses[j] == a[1..];
        assert r[j] == [place] + a[1..] == a;
      }
    }
  }

  /** Searching below one item of the list. */
  lemma LocatedUnder(found: seq<Item>, items: seq<Item>, place: nat, addresses: seq<Address>)
    requires place < |items| && Located(found, Children(items[place]), addresses)
    ensures Located(found, items, Under(place, addresses))
  {
    var r := Under(place, addresses);
    forall j | 0 <= j < |r| ensures At(items, r[j]) == Some(found[j]) {
      assert At(Children(items[place]), addresses[j]).Some?;
      assert r[j][1..] == addresses[j];
    }
    forall i, j | 0 <= i < j < |r| ensures ComesBefore(r[i], r[j]) {
      assert ComesBefore(addresses[i], addresses[j]);
      assert r[i][1..] == addresses[i] && r[j][1..] == addresses[j];
    }
  }

  lemma LocatedAppend(f: seq<Item>, g: seq<Item>, items: seq<Item>, a: seq<Address>, b: seq<Address>)
    requires Located(f, items, a) && Located(g, items, b)
    requires forall x <- a, y <- b :: ComesBefore(x, y)
    ensures Located(f + g, items, a + b)
  {
    forall i, j | 0 <= i < j < |a + b| ensures ComesBefore((a + b)[i], (a + b)[j]) {
      if i < |a| <= j {
        assert a[i] in a && b[j - |a|] in b;
      }
    }
  }

  /** An item, if it is found, comes before the ones found below it. */
  lemma PlaceInOrder(items: seq<Item>, i: nat, self: seq<Item>, here: seq<Address>, found: seq<Item>,
                     below: seq<Address>)
    requires i < |items| && Located(found, Children(items[i]), below)
    requires (self == [] && here == []) || (self == [items[i]] && here == [[i]])
    ensures Located(self + found, items, here + Under(i, below))
    ensures forall x <- here + Under(i, below) :: x != [] && x[0] == i
  {
    LocatedUnder(found, items, i, below);
    NotEmpty(Children(items[i]), found, below);
    assert forall x <- here, y <- Under(i, below) :: ComesBefore(x, y);
    LocatedAppend(self, found, items, here, Under(i, below));
  }

  /** A search lists exactly the items of the name below the item, in reading order. */
  lemma {:induction false} FindInOrder(item: Item, key: string) returns (addresses: seq<Address>)
    ensures Located(Find(item, key), Children(item), addresses)
    ensures forall a :: a in addresses <==> NamedAt(Children(item), key, a)
    decreases Size(item), 0
  {
    addresses := FindBelowInOrder(Children(item), key, 0);
    assert Children(item)[0..] == Children(item);
    forall a | NamedAt(Children(item), key, a) ensures a in addresses {
    }
  }

  /** The part of the search from place `i` on. */
  lemma {:induction false} FindBelowInOrder(items: seq<Item>, key: string, i: nat) returns (addresses: seq<Address>)
    requires i <= |items|
    ensures Located(FindBelow(items[i..], key), items, addresses)
    ensures forall a :: a in addresses <==> a != [] && a[0] >= i && NamedAt(items, key, a)
    decreases SizeAll(items[i..]), 1
  {
    if i == |items| {
      addresses := [];
    } else {
      var rest := items[i..];
      assert rest[0] == items[i] && rest[1..] == items[i + 1..];
      var below := FindInOrder(items[i], key);
      var later := FindBelowInOrder(items, key, i + 1);
      var here: seq<Address> := if items[i].name == key then [[i]] else [];
      var self: seq<Item> := if items[i].name == key then [items[i]] else [];
      PlaceInOrder(items, i, self, here, Find(items[i], key), below);
      var first := here + Under(i, below);
      LocatedAppend(self + Find(items[i], key), FindBelow(rest[1..], key), items, first, later);
      addresses := first + later;
      forall a: Address ensures a in addresses <==> a != [] && a[0] >= i && NamedAt(items, key, a) {
        AddressCases(items, key, i, a, below, later);
      }
    }
  }

  lemma NotEmpty(items: seq<Item>, found: seq<Item>, addresses: seq<Address>)
    requires Located(found, items, addresses)
    ensures forall a <- addresses :: a != []
  {
  }

  lemma AddressCases(items: seq<Item>, key: string, i: nat, a: Address, below: seq<Address>, later: seq<Address>)
    requires i < |items|
    requires forall x :: x in below <==> NamedAt(Children(items[i]), key, x)
    requires forall x :: x in later <==> x != [] && x[0] >= i + 1 && NamedAt(items, key, x)
    ensures (a == [i] && items[i].name == key) || a in Under(i, below) || a in later
       <==> a != [] && a[0] >= i && NamedAt(items, key, a)
  {
    if a != [] && a[0] == i && |a| > 1 {
      assert At(items, a) == At(Children(items[i]), a[1..]);
    } else if a != [] && a[0] == i {
      assert a == [i];
      assert a[1..] == [];
      assert !NamedAt(Children(items[i]), key, []);
    }
  }

  /** A nested block offers the items of its name themselves, and then those below them, in reading order. */
  lemma {:induction false} NestedInOrder(items: seq<Item>, key: string) returns (addresses: seq<Address>)
    ensures Located(FindAll(items, key), items, addresses)
    ensures forall a :: a in addresses <==> |a| > 1 && NamedAt(items, key, a)
    decreases |items|
  {
    if items == [] {
      addresses := [];
    } else {
      var n := |items| - 1;
      var front := NestedInOrder(items[..n], key);
      LocatedLonger(FindAll(items[..n], key), items, n, front);
      var below := FindInOrder(items[n], key);
      LocatedUnder(Find(items[n], key), items, n, below);
      assert forall a <- front :: a[0] < n by {
        forall a | a in front ensures a[0] < n {
          assert NamedAt(items[..n], key, a);
        }
      }
      LocatedAppend(FindAll(items[..n], key), Find(items[n], key), items, front, Under(n, below));
      addresses := front + Under(n, below);
      forall a: Address ensures a in addresses <==> |a| > 1 && NamedAt(items, key, a) {
        NestedCases(items, key, n, a, front, below);
      }
    }
  }

  lemma NestedCases(items: seq<Item>, key: string, n: nat, a: Address, front: seq<Address>, below: seq<Address>)
    requires |items| == n + 1
    requires forall x :: x in front <==> |x| > 1 && NamedAt(items[..n], key, x)
    requires forall x :: x in below <==> NamedAt(Children(items[n]), key, x)
    ensures a in front || a in Under(n, below) <==> |a| > 1 && NamedAt(items, key, a)
  {
    if |a| > 1 && a[0] < n {
      assert At(items, a) == At(items[..n], a);
    } else if |a| > 1 && a[0] == n {
      assert At(items, a) == At(Children(items[n]), a[1..]);
    }
    if a in Under(n, below) {
      assert NamedAt(Children(items[n]), key, a[1..]);
    }
  }

  lemma LocatedLonger(found: seq<Item>, items: seq<Item>, n: nat, addresses: seq<Address>)
    requires n <= |items| && Located(found, items[..n], addresses)
    ensures Located(found, items, addresses)
  {
    forall j | 0 <= j < |addresses| ensures At(items, addresses[j]) == Some(found[j]) {
      assert At(items[..n], addresses[j]).Some?;
    }
  }

  /** Children come in order, and those of the content item after them. */
  lemma ChildrenInOrder(item: Item, i: nat)
    ensures i < |item.children| ==> i < |Children(item)| && Children(item)[i] == item.children[i]
    ensures item.content.Some? && i < |Children(item.content.value)| ==>
              var at := |item.children| + i;
              at < |Children(item)| && Children(item)[at] == Children(item.content.value)[i]
    ensures |Children(item)|
         == |item.children| + if item.content.Some? then |Children(item.content.value)| else 0
  {
  }

  /** The filters of a nested block pick by position among the items it offers. */
  lemma NestedSelection(items: seq<Item>, key: string, fs: seq<Filter>)
    requires key != ""
    ensures Select(items, Block(true, key, fs))
         == Select(Named(items, key) + FindAll(items, key), Block(false, "", fs))
  {
  }
}
