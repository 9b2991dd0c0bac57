/** Sorted lists of the values of a map. A map is read in arbitrary order, but what is
    sorted afterwards does not depend on it. */
module Values {
  import opened Text
  import opened Sorting
  import opened LoadBalancers

  function KeysOf(m: map<string, string>, value: string): set<string> {
    set key | key in m && m[key] == value
  }

  /** A sorted list in which each value occurs as often as there are keys with it. */
  ghost predicate ListsValues(m: map<string, string>, list: seq<string>) {
    SortedBy(Le, list) && forall value :: multiset(list)[value] == |KeysOf(m, value)|
  }

  lemma NoValues(m: map<string, string>)
    requires m.Keys == {}
    ensures forall value :: |KeysOf(m, value)| == 0
  {
  }

  lemma OneValueMore(m: map<string, string>, remaining: set<string>, key: string)
    requires key in remaining && remaining <= m.Keys
    ensures forall value :: |KeysOf(m - (remaining - {key}), value)| ==
                            |KeysOf(m - remaining, value)| + if value == m[key] then 1 else 0
  {
    forall value ensures KeysOf(m - (remaining - {key}), value) ==
                         KeysOf(m - remaining, value) + if value == m[key] then {key} else {}
    {
    }
  }

  lemma SortedStrings(s: seq<string>)
    ensures SortedBy(Le, SortStrings(s))
  {
    LeIsLinear();
    SortSorts(Le, s);
  }

  lemma SortedStringsAreUnique(a: seq<string>, b: seq<string>)
    requires SortedBy(Le, a) && SortedBy(Le, b) && multiset(a) == multiset(b)
    ensures a == b
  {
    hide Preorder, Separates, SortedBy;
    LeIsLinear();
    SortedIsUnique(Le, a, b);
  }

  lemma ListingIsUnique(m: map<string, string>, a: seq<string>, b: seq<string>)
    requires ListsValues(m, a) && ListsValues(m, b)
    ensures a == b
  {
    hide SortedBy, KeysOf;
    assert multiset(a) == multiset(b);
    SortedStringsAreUnique(a, b);
  }

  lemma ListingHoldsValues(m: map<string, string>, list: seq<string>)
    requires ListsValues(m, list)
    ensures Elements(list) == m.Values
  {
    forall value ensures value in list <==> value in m.Values {
      assert value in list <==> value in multiset(list);
      if value in m.Values {
        var key :| key in m && m[key] == value;
        assert key in KeysOf(m, value);
      }
      if KeysOf(m, value) != {} {
        var key :| key in KeysOf(m, value);
        assert key in m && m[key] == value;
      }
    }
  }
}
