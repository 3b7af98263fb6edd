/** Service catalogs: the values of a map of grants, sorted by name. */
module Listing {
  import opened Policy

  /** Byte-wise string order. */
  predicate Less(a: string, b: string) {
    b != [] && (a == [] || a[0] < b[0] || (a[0] == b[0] && Less(a[1..], b[1..])))
  }

  lemma LessTransitive(a: string, b: string, c: string)
    requires Less(a, b) && Less(b, c)
    ensures Less(a, c)
  {
  }

  lemma LessTotal(a: string, b: string)
    ensures Less(a, b) || Less(b, a) || a == b
    ensures !(Less(a, b) && Less(b, a)) && !Less(a, a)
  {
    if a != [] && b != [] && a[0] == b[0] {
      LessTotal(a[1..], b[1..]);
      assert a == [a[0]] + a[1..] && b == [b[0]] + b[1..];
    }
  }

  ghost predicate StrictlySorted(xs: seq<Service>) {
    forall i, j :: 0 <= i < j < |xs| ==> Less(xs[i].name, xs[j].name)
  }

  function Insert(x: Service, xs: seq<Service>): seq<Service> {
    if xs == [] || Less(x.name, xs[0].name) then [x] + xs else [xs[0]] + Insert(x, xs[1..])
  }

  function SortByName(xs: seq<Service>): seq<Service> {
    if xs == [] then [] else Insert(xs[0], SortByName(xs[1..]))
  }

  lemma {:induction false} InsertHolds(x: Service, xs: seq<Service>)
    ensures forall s :: s in Insert(x, xs) <==> s == x || s in xs
  {
    if xs != [] && !Less(x.name, xs[0].name) {
      InsertHolds(x, xs[1..]);
    }
  }

  lemma {:induction false} InsertSorts(x: Service, xs: seq<Service>)
    requires StrictlySorted(xs) && forall s :: s in xs ==> s.name != x.name
    ensures StrictlySorted(Insert(x, xs))
  {
    if xs == [] {
    } else if Less(x.name, xs[0].name) {
      forall j | 0 <= j < |xs| ensures Less(x.name, xs[j].name) {
        if j > 0 {
          LessTransitive(x.name, xs[0].name, xs[j].name);
        }
      }
    } else {
      InsertSorts(x, xs[1..]);
      InsertHolds(x, xs[1..]);
      LessTotal(x.name, xs[0].name);
      var rest := Insert(x, xs[1..]);
      forall j | 0 <= j < |rest| ensures Less(xs[0].name, rest[j].name) {
        assert rest[j] in rest;
      }
    }
  }

  ghost predicate DistinctNames(xs: seq<Service>) {
    forall i, j :: 0 <= i < j < |xs| ==> xs[i].name != xs[j].name
  }

  lemma {:induction false} SortSorts(xs: seq<Service>)
    requires DistinctNames(xs)
    ensures StrictlySorted(SortByName(xs)) && forall s :: s in SortByName(xs) <==> s in xs
  {
    if xs != [] {
      SortSorts(xs[1..]);
      InsertHolds(xs[0], SortByName(xs[1..]));
      InsertSorts(xs[0], SortByName(xs[1..]));
    }
  }

  /** A grant map keeps every service under its own name. */
  ghost predicate Named(m: map<string, Service>) {
    forall k :: k in m ==> m[k].name == k
  }

  ghost predicate Lists(xs: seq<Service>, m: map<string, Service>) {
    StrictlySorted(xs) && forall s :: s in xs <==> s.name in m && m[s.name] == s
  }

  /** Collect in map order, then sort. */
  method List(m: map<string, Service>) returns (xs: seq<Service>)
    requires Named(m)
    ensures Lists(xs, m)
  {
    var collected: seq<Service> := [];
    var rest := m.Keys;
    while rest != {}
      invariant rest <= m.Keys && DistinctNames(collected)
      invariant forall s :: s in collected <==> s.name in m.Keys - rest && m[s.name] == s
      decreases |rest|
    {
      var k :| k in rest;
      rest := rest - {k};
      collected := collected + [m[k]];
    }
    SortSorts(collected);
    xs := SortByName(collected);
  }

  /** Indexing a listing by name gives the map back. */
  method ByName(xs: seq<Service>, ghost m: map<string, Service>) returns (combined: map<string, Service>)
    requires Named(m) && Lists(xs, m)
    ensures combined == m
  {
    combined := map[];
    for n := 0 to |xs|
      invariant forall i :: 0 <= i < n ==> xs[i].name in combined
      invariant forall k :: k in combined ==> k in m && combined[k] == m[k]
    {
      assert xs[n] in xs;
      combined := combined[xs[n].name := xs[n]];
    }
    forall k | k in m ensures k in combined {
      assert m[k] in xs;
    }
  }
}
