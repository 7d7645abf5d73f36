/** Service records as fetched from the remote catalog, and the distinct list
    of their categories in first-seen order (the `[...new Set(data.map(s => s.category))]`
    expression of the Services component). */
module ServiceCatalog {

  datatype Option<+T> = None | Some(value: T)

  /** A fetched service. The component reads only `id` and `category`; the
      remaining fields are display data handed through to the card and modal. */
  datatype ServiceRecord = ServiceRecord(
    id: int,
    category: string,
    name: string,
    description: string,
    price: string)

  predicate NoDuplicates(s: seq<string>) {
    forall i, j :: 0 <= i < j < |s| ==> s[i] != s[j]
  }

  /** Some record of `data` carries category `c`. */
  predicate Occurs(data: seq<ServiceRecord>, c: string) {
    exists i :: 0 <= i < |data| && data[i].category == c
  }

  /** A category occurs in `data + [s]` exactly when it occurs in `data` or is `s`'s. */
  lemma OccursSnoc(data: seq<ServiceRecord>, s: ServiceRecord, c: string)
    ensures Occurs(data + [s], c) <==> Occurs(data, c) || s.category == c
  {
    var xs := data + [s];
    if Occurs(data, c) {
      var i :| 0 <= i < |data| && data[i].category == c;
      assert xs[i] == data[i];
    }
    if s.category == c {
      assert xs[|data|] == s;
    }
    if Occurs(xs, c) && s.category != c {
      var i :| 0 <= i < |xs| && xs[i].category == c;
      assert i < |data| && data[i] == xs[i];
    }
  }

  /** The categories of `data`, each once, in the order a JavaScript `Set`
      would have them after inserting every record's category in turn. */
  function Categories(data: seq<ServiceRecord>): (r: seq<string>)
    ensures NoDuplicates(r)
    ensures forall c :: c in r <==> Occurs(data, c)
  {
    if data == [] then []
    else
      var init := data[..|data| - 1];
      var s := data[|data| - 1];
      assert data == init + [s];
      var prev := Categories(init);
      forall c ensures Occurs(data, c) <==> Occurs(init, c) || s.category == c {
        OccursSnoc(init, s, c);
      }
      if s.category in prev then prev else prev + [s.category]
  }

  /** Position of the first record of `data` whose category is `c`. */
  function FirstIndex(data: seq<ServiceRecord>, c: string): (k: nat)
    requires Occurs(data, c)
    ensures k < |data| && data[k].category == c
    ensures forall j :: 0 <= j < k ==> data[j].category != c
  {
    if data[0].category == c then 0
    else
      assert Occurs(data[1..], c) by {
        var i :| 0 <= i < |data| && data[i].category == c;
        assert data[1..][i - 1] == data[i];
      }
      var k := FirstIndex(data[1..], c);
      assert forall j :: 1 <= j < k + 1 ==> data[j] == data[1..][j - 1];
      k + 1
  }

  /** Appending a record does not move the first occurrence of a category
      that already occurs. */
  lemma FirstIndexSnoc(data: seq<ServiceRecord>, s: ServiceRecord, c: string)
    requires Occurs(data, c)
    ensures Occurs(data + [s], c) && FirstIndex(data + [s], c) == FirstIndex(data, c)
  {
    var xs := data + [s];
    OccursSnoc(data, s, c);
    var k, k' := FirstIndex(data, c), FirstIndex(xs, c);
    assert forall t :: 0 <= t < |data| ==> xs[t] == data[t];
  }

  /** `Categories` lists each category in the order of its first occurrence in `data`. */
  lemma {:induction false} CategoriesFirstSeenOrder(data: seq<ServiceRecord>, i: nat, j: nat)
    requires i < j < |Categories(data)|
    ensures Occurs(data, Categories(data)[i]) && Occurs(data, Categories(data)[j])
    ensures FirstIndex(data, Categories(data)[i]) < FirstIndex(data, Categories(data)[j])
  {
    var r := Categories(data);
    assert r[i] in r && r[j] in r;
    var init := data[..|data| - 1];
    var s := data[|data| - 1];
    assert data == init + [s];
    var prev := Categories(init);
    if j < |prev| {
      assert r[i] == prev[i] && r[j] == prev[j];
      CategoriesFirstSeenOrder(init, i, j);
      assert prev[i] in prev && prev[j] in prev;
      FirstIndexSnoc(init, s, prev[i]);
      FirstIndexSnoc(init, s, prev[j]);
    } else {
      // r[j] is the category first seen at the last record
      assert s.category !in prev && r == prev + [s.category] && r[j] == s.category;
      assert !Occurs(init, s.category);
      assert forall t :: 0 <= t < |init| ==> data[t] == init[t];
      assert r[i] == prev[i] && prev[i] in prev;
      var wi :| 0 <= wi < |init| && init[wi].category == prev[i];
      assert data[wi] == init[wi];
    }
  }

  /** `r` lists the categories of `data`, each once, ordered by first occurrence. */
  ghost predicate IsFirstSeenList(data: seq<ServiceRecord>, r: seq<string>) {
    && NoDuplicates(r)
    && (forall c :: c in r <==> Occurs(data, c))
    && (forall i, j :: 0 <= i < j < |r| && Occurs(data, r[i]) && Occurs(data, r[j]) ==>
          FirstIndex(data, r[i]) < FirstIndex(data, r[j]))
  }

  /** `Categories(data)` is a first-seen list of `data`'s categories. */
  lemma CategoriesIsFirstSeenList(data: seq<ServiceRecord>)
    ensures IsFirstSeenList(data, Categories(data))
  {
    var r := Categories(data);
    forall i, j | 0 <= i < j < |r| && Occurs(data, r[i]) && Occurs(data, r[j])
      ensures FirstIndex(data, r[i]) < FirstIndex(data, r[j])
    {
      CategoriesFirstSeenOrder(data, i, j);
    }
  }

  /** When the last record's category was already seen, a first-seen list of
      the whole sequence is one of the prefix. */
  lemma FirstSeenListSeenBefore(init: seq<ServiceRecord>, s: ServiceRecord, r: seq<string>)
    requires IsFirstSeenList(init + [s], r)
    requires Occurs(init, s.category)
    ensures IsFirstSeenList(init, r)
  {
    forall c ensures Occurs(init + [s], c) <==> Occurs(init, c) || s.category == c {
      OccursSnoc(init, s, c);
    }
    forall i, j | 0 <= i < j < |r| && Occurs(init, r[i]) && Occurs(init, r[j])
      ensures FirstIndex(init, r[i]) < FirstIndex(init, r[j])
    {
      FirstIndexSnoc(init, s, r[i]);
      FirstIndexSnoc(init, s, r[j]);
    }
  }

  /** When the last record's category is new, it ends every first-seen list of
      the whole sequence, and what precedes it is a first-seen list of the prefix. */
  lemma FirstSeenListNewLast(init: seq<ServiceRecord>, s: ServiceRecord, r: seq<string>)
    requires IsFirstSeenList(init + [s], r)
    requires !Occurs(init, s.category)
    ensures |r| > 0 && r == r[..|r| - 1] + [s.category]
    ensures IsFirstSeenList(init, r[..|r| - 1])
  {
    var data := init + [s];
    forall c ensures Occurs(data, c) <==> Occurs(init, c) || s.category == c {
      OccursSnoc(init, s, c);
    }
    assert s.category in r;
    var n := |r| - 1;
    assert forall t :: 0 <= t < |init| ==> data[t] == init[t];
    assert FirstIndex(data, s.category) == |init|;
    assert r[n] in r;
    var r' := r[..n];
    assert r == r' + [s.category];
    forall c ensures c in r' <==> Occurs(init, c) {
      if c in r' {
        var t :| 0 <= t < n && r'[t] == c;
        assert r[t] == c && r[t] != r[n];
      }
      if Occurs(init, c) {
        assert c in r && c != s.category;
      }
    }
    forall i, j | 0 <= i < j < |r'| && Occurs(init, r'[i]) && Occurs(init, r'[j])
      ensures FirstIndex(init, r'[i]) < FirstIndex(init, r'[j])
    {
      assert r'[i] == r[i] && r'[j] == r[j];
      FirstIndexSnoc(init, s, r[i]);
      FirstIndexSnoc(init, s, r[j]);
    }
  }

  /** The first-seen list is unique: any sequence with those properties is
      `Categories(data)`, so the properties characterise it completely. */
  lemma {:induction false} CategoriesUnique(data: seq<ServiceRecord>, r: seq<string>)
    requires IsFirstSeenList(data, r)
    ensures r == Categories(data)
  {
    if data == [] {
      if r != [] {
        assert r[0] in r;
      }
    } else {
      var init := data[..|data| - 1];
      var s := data[|data| - 1];
      assert data == init + [s];
      if Occurs(init, s.category) {
        FirstSeenListSeenBefore(init, s, r);
        CategoriesUnique(init, r);
        assert s.category in Categories(init);
      } else {
        FirstSeenListNewLast(init, s, r);
        CategoriesUnique(init, r[..|r| - 1]);
        assert s.category !in Categories(init);
      }
    }
  }

  /** A worked example: two "Food" records and one "Drinks" record give the
      categories ["Food", "Drinks"]. */
  lemma ExampleCategories(food1: ServiceRecord, food2: ServiceRecord, drink: ServiceRecord)
    requires food1.category == "Food" && food2.category == "Food" && drink.category == "Drinks"
    ensures Categories([food1, food2, drink]) == ["Food", "Drinks"]
  {
    var data := [food1, food2, drink];
    assert data[..2] == [food1, food2] && data[..2][..1] == [food1] && [food1][..0] == [];
    assert Categories([food1]) == ["Food"];
    assert Categories([food1, food2]) == ["Food"];
  }
}
