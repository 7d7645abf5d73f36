/** The `servicesByCategory` projection of the Services component: a `reduce`
    that pushes every record onto the array of its category, and the ordered
    sections the page renders from it, one per category in first-seen order. */
module CategoryGrouping {
  import opened ServiceCatalog

  /** The records of `services` whose category is `c`, in their original order. */
  function GroupOf(services: seq<ServiceRecord>, c: string): (g: seq<ServiceRecord>)
    ensures forall s :: s in g ==> s in services && s.category == c
    ensures g == [] <==> !Occurs(services, c)
  {
    if services == [] then []
    else
      var init := services[..|services| - 1];
      var s := services[|services| - 1];
      assert services == init + [s];
      OccursSnoc(init, s, c);
      var prev := GroupOf(init, c);
      if s.category == c then prev + [s] else prev
  }

  /** Records keep their relative order: the group of a concatenation is the
      concatenation of the groups. */
  lemma {:induction false} GroupOfAppend(xs: seq<ServiceRecord>, ys: seq<ServiceRecord>, c: string)
    ensures GroupOf(xs + ys, c) == GroupOf(xs, c) + GroupOf(ys, c)
  {
    if ys == [] {
      assert xs + ys == xs;
    } else {
      var init := ys[..|ys| - 1];
      var s := ys[|ys| - 1];
      assert ys == init + [s];
      assert (xs + ys)[..|xs + ys| - 1] == xs + init;
      GroupOfAppend(xs, init, c);
    }
  }

  /** Every record lands in the group keyed by its own category. */
  lemma {:induction false} RecordInOwnGroup(services: seq<ServiceRecord>, i: nat)
    requires i < |services|
    ensures services[i] in GroupOf(services, services[i].category)
  {
    var c := services[i].category;
    assert services == services[..i] + [services[i]] + services[i + 1..];
    GroupOfAppend(services[..i] + [services[i]], services[i + 1..], c);
    GroupOfAppend(services[..i], [services[i]], c);
    assert GroupOf([services[i]], c) == [services[i]] by {
      assert [services[i]][..0] == [];
    }
  }

  /** One rendered category section: the heading and the cards under it. */
  datatype Section = Section(category: string, members: seq<ServiceRecord>)

  /** The sections for the given keys, in key order. */
  function SectionsFor(services: seq<ServiceRecord>, keys: seq<string>): (r: seq<Section>)
    ensures |r| == |keys|
    ensures forall i :: 0 <= i < |r| ==> r[i].category == keys[i] && r[i].members == GroupOf(services, keys[i])
  {
    if keys == [] then []
    else SectionsFor(services, keys[..|keys| - 1]) + [Section(keys[|keys| - 1], GroupOf(services, keys[|keys| - 1]))]
  }

  /** What the page iterates over, `Object.entries(servicesByCategory)`, when
      no record hits an inherited key: one section per category in first-seen
      order, each holding that category's group. */
  function Sections(services: seq<ServiceRecord>): (r: seq<Section>)
    ensures |r| == |Categories(services)|
    ensures forall i :: 0 <= i < |r| ==>
              r[i].category == Categories(services)[i] && r[i].members == GroupOf(services, r[i].category)
  {
    SectionsFor(services, Categories(services))
  }

  /** Total number of cards over all sections. */
  function TotalMembers(sections: seq<Section>): nat {
    if sections == [] then 0
    else TotalMembers(sections[..|sections| - 1]) + |sections[|sections| - 1].members|
  }

  /** Appending a record to `services` adds one card to the sections of
      distinct keys exactly when its category is one of the keys. */
  lemma {:induction false} TotalMembersSnoc(services: seq<ServiceRecord>, s: ServiceRecord, keys: seq<string>)
    requires NoDuplicates(keys)
    ensures TotalMembers(SectionsFor(services + [s], keys)) ==
            TotalMembers(SectionsFor(services, keys)) + (if s.category in keys then 1 else 0)
  {
    var xs := services + [s];
    assert xs[..|xs| - 1] == services;
    if keys != [] {
      var init := keys[..|keys| - 1];
      var k := keys[|keys| - 1];
      assert keys == init + [k];
      assert NoDuplicates(init);
      TotalMembersSnoc(services, s, init);
      var a, b := SectionsFor(xs, keys), SectionsFor(services, keys);
      assert a[..|a| - 1] == SectionsFor(xs, init);
      assert b[..|b| - 1] == SectionsFor(services, init);
      assert |a[|a| - 1].members| == |b[|b| - 1].members| + (if s.category == k then 1 else 0) by {
        assert a[|a| - 1].members == GroupOf(xs, k) && b[|b| - 1].members == GroupOf(services, k);
      }
      assert s.category in keys <==> s.category in init || s.category == k;
      assert s.category == k ==> s.category !in init;
    }
  }

  /** Grouping is a partition: the section sizes add up to the number of records. */
  lemma {:induction false} SectionSizesSumToLength(services: seq<ServiceRecord>)
    ensures TotalMembers(Sections(services)) == |services|
  {
    if services != [] {
      var init := services[..|services| - 1];
      var s := services[|services| - 1];
      assert services == init + [s];
      var prev := Categories(init);
      SectionSizesSumToLength(init);
      TotalMembersSnoc(init, s, prev);
      if s.category !in prev {
        var r := SectionsFor(services, prev + [s.category]);
        assert (prev + [s.category])[..|prev|] == prev;
        assert r[..|r| - 1] == SectionsFor(services, prev);
        assert r[|r| - 1].members == GroupOf(init, s.category) + [s];
        assert GroupOf(init, s.category) == [];
      }
    }
  }

  /** The other partition properties of the rendered sections: their headings
      are `Categories(services)`, none is empty, each holds only records of
      its own category, and every record appears under its category. */
  lemma SectionsPartition(services: seq<ServiceRecord>)
    ensures |Sections(services)| == |Categories(services)|
    ensures forall i :: 0 <= i < |Sections(services)| ==> Sections(services)[i].category == Categories(services)[i]
    ensures forall i :: 0 <= i < |Sections(services)| ==> Sections(services)[i].members != []
    ensures forall i, s :: 0 <= i < |Sections(services)| && s in Sections(services)[i].members ==>
              s in services && s.category == Sections(services)[i].category
    ensures forall j :: 0 <= j < |services| ==>
              exists i :: 0 <= i < |Sections(services)| && Sections(services)[i].category == services[j].category
                          && services[j] in Sections(services)[i].members
  {
    var r, cats := Sections(services), Categories(services);
    forall i | 0 <= i < |r| ensures r[i].members != [] {
      assert cats[i] in cats;
    }
    forall j | 0 <= j < |services|
      ensures exists i :: 0 <= i < |r| && r[i].category == services[j].category && services[j] in r[i].members
    {
      var c := services[j].category;
      assert Occurs(services, c);
      var i :| 0 <= i < |cats| && cats[i] == c;
      RecordInOwnGroup(services, j);
      assert r[i].category == c && services[j] in r[i].members;
    }
  }

  /** The accumulator of the `reduce`: the object's keys in insertion order,
      and the array each key holds. */
  datatype CategoryGroups = CategoryGroups(keys: seq<string>, byKey: map<string, seq<ServiceRecord>>)

  ghost predicate WellFormed(g: CategoryGroups) {
    forall k :: k in g.byKey <==> k in g.keys
  }

  /** `Object.entries` of the accumulator, in key-insertion order. */
  function Entries(g: CategoryGroups): (r: seq<Section>)
    requires WellFormed(g)
    ensures |r| == |g.keys|
    ensures forall i :: 0 <= i < |r| ==>
              r[i].category == g.keys[i] && r[i].category in g.byKey && r[i].members == g.byKey[r[i].category]
  {
    seq(|g.keys|, i requires 0 <= i < |g.keys| => Section(g.keys[i], g.byKey[g.keys[i]]))
  }

  /** How many names `PrototypeName` lists. */
  const PrototypeNameCount := 12

  /** The names a plain `{}` already answers through `Object.prototype`. For
      such a name `acc[name]` is an inherited function or object, which is
      truthy, so `|| []` keeps it and the following `.push` is not a function. */
  function PrototypeName(i: nat): string
    requires i < PrototypeNameCount
  {
    match i
    case 0 => "constructor"
    case 1 => "hasOwnProperty"
    case 2 => "isPrototypeOf"
    case 3 => "propertyIsEnumerable"
    case 4 => "toLocaleString"
    case 5 => "toString"
    case 6 => "valueOf"
    case 7 => "__proto__"
    case 8 => "__defineGetter__"
    case 9 => "__defineSetter__"
    case 10 => "__lookupGetter__"
    case _ => "__lookupSetter__"
  }

  predicate InheritedKey(k: string) {
    exists i: nat :: i < PrototypeNameCount && PrototypeName(i) == k
  }

  /** The category of the first record on which the `reduce` throws, if any. */
  function FirstInheritedKey(services: seq<ServiceRecord>): (r: Option<string>)
    ensures r.None? <==> forall i :: 0 <= i < |services| ==> !InheritedKey(services[i].category)
    ensures r.Some? ==> exists i :: 0 <= i < |services| && services[i].category == r.value && InheritedKey(r.value)
                          && forall j :: 0 <= j < i ==> !InheritedKey(services[j].category)
  {
    if services == [] then None
    else if InheritedKey(services[0].category) then Some(services[0].category)
    else
      var r := FirstInheritedKey(services[1..]);
      assert forall j :: 1 <= j < |services| ==> services[j] == services[1..][j - 1];
      r
  }

  /** One step of `FirstInheritedKey` along a suffix of `services`. */
  lemma FirstInheritedKeyStep(services: seq<ServiceRecord>, i: nat)
    requires i < |services|
    ensures FirstInheritedKey(services[i..]) ==
              if InheritedKey(services[i].category) then Some(services[i].category)
              else FirstInheritedKey(services[i + 1..])
  {
    // Dafny unfolds `FirstInheritedKey` on the suffix by itself.
  }

  /** How the `reduce` ends: with the accumulator, or with the `TypeError`
      thrown by pushing onto the inherited value of `key`. */
  datatype GroupOutcome = Grouped(groups: CategoryGroups) | PushOnInherited(key: string)

  /** After the first `n` records, the accumulator holds their key order and
      their groups, and no key is an inherited one. */
  ghost predicate GroupedPrefix(services: seq<ServiceRecord>, n: nat, keys: seq<string>,
                                byKey: map<string, seq<ServiceRecord>>)
    requires n <= |services|
  {
    && keys == Categories(services[..n])
    && (forall k :: k in byKey <==> k in keys)
    && (forall k :: k in byKey ==> byKey[k] == GroupOf(services[..n], k) && !InheritedKey(k))
  }

  /** Pushing record `n` onto the existing array of its category. */
  lemma PushExisting(services: seq<ServiceRecord>, n: nat, keys: seq<string>,
                     byKey: map<string, seq<ServiceRecord>>)
    requires n < |services| && GroupedPrefix(services, n, keys, byKey)
    requires services[n].category in byKey
    ensures GroupedPrefix(services, n + 1, keys,
                          byKey[services[n].category := byKey[services[n].category] + [services[n]]])
  {
    assert services[..n + 1] == services[..n] + [services[n]];
    assert services[..n + 1][..n] == services[..n];
  }

  /** Creating the array of a new, not inherited category with record `n`. */
  lemma PushNew(services: seq<ServiceRecord>, n: nat, keys: seq<string>,
                byKey: map<string, seq<ServiceRecord>>)
    requires n < |services| && GroupedPrefix(services, n, keys, byKey)
    requires services[n].category !in byKey && !InheritedKey(services[n].category)
    ensures GroupedPrefix(services, n + 1, keys + [services[n].category],
                          byKey[services[n].category := [services[n]]])
  {
    var c := services[n].category;
    assert services[..n + 1] == services[..n] + [services[n]];
    assert services[..n + 1][..n] == services[..n];
    assert GroupOf(services[..n], c) == [];
  }

  /** The `reduce` loop: for each record, push it onto its category's array,
      creating the array (and so the key) when `acc[category]` is falsy. */
  method GroupByCategory(services: seq<ServiceRecord>) returns (out: GroupOutcome)
    ensures out.PushOnInherited? <==> FirstInheritedKey(services).Some?
    ensures out.PushOnInherited? ==> out.key == FirstInheritedKey(services).value
    ensures out.Grouped? ==>
              && WellFormed(out.groups)
              && out.groups.keys == Categories(services)
              && (forall k :: k in out.groups.byKey ==> out.groups.byKey[k] == GroupOf(services, k))
              && Entries(out.groups) == Sections(services)
  {
    var keys: seq<string> := [];
    var byKey: map<string, seq<ServiceRecord>> := map[];
    var i := 0;
    while i < |services|
      invariant 0 <= i <= |services|
      invariant GroupedPrefix(services, i, keys, byKey)
      invariant FirstInheritedKey(services[i..]) == FirstInheritedKey(services)
    {
      var s := services[i];
      FirstInheritedKeyStep(services, i);
      if s.category in byKey {
        PushExisting(services, i, keys, byKey);
        byKey := byKey[s.category := byKey[s.category] + [s]];
      } else if InheritedKey(s.category) {
        return PushOnInherited(s.category);
      } else {
        PushNew(services, i, keys, byKey);
        keys := keys + [s.category];
        byKey := byKey[s.category := [s]];
      }
      i := i + 1;
    }
    assert services[..i] == services;
    assert services[i..] == [];
    out := Grouped(CategoryGroups(keys, byKey));
  }

  /** A worked example: two "Food" records and one "Drinks" record give a
      "Food" group of two records and a "Drinks" group of one ... */
  lemma ExampleGroups(food1: ServiceRecord, food2: ServiceRecord, drink: ServiceRecord)
    requires food1.category == "Food" && food2.category == "Food" && drink.category == "Drinks"
    ensures GroupOf([food1, food2, drink], "Food") == [food1, food2]
    ensures GroupOf([food1, food2, drink], "Drinks") == [drink]
  {
    var data := [food1, food2, drink];
    assert data[..2] == [food1, food2] && data[..2][..1] == [food1] && [food1][..0] == [];
    assert GroupOf([food1], "Food") == [food1];
    assert GroupOf([food1, food2], "Food") == [food1, food2];
    assert GroupOf([food1], "Drinks") == [];
    assert GroupOf([food1, food2], "Drinks") == [];
  }

  /** ... and so the sections the page shows. */
  lemma ExampleSections(food1: ServiceRecord, food2: ServiceRecord, drink: ServiceRecord)
    requires food1.category == "Food" && food2.category == "Food" && drink.category == "Drinks"
    ensures Sections([food1, food2, drink]) == [Section("Food", [food1, food2]), Section("Drinks", [drink])]
  {
    var data := [food1, food2, drink];
    ExampleCategories(food1, food2, drink);
    ExampleGroups(food1, food2, drink);
    var r := Sections(data);
    assert |r| == 2 && r[0] == Section("Food", [food1, food2]) && r[1] == Section("Drinks", [drink]);
  }

  /** ... and none of these categories is an inherited name, so the
      grouping does not throw. */
  lemma ExampleNotInherited(food1: ServiceRecord, food2: ServiceRecord, drink: ServiceRecord)
    requires food1.category == "Food" && food2.category == "Food" && drink.category == "Drinks"
    ensures FirstInheritedKey([food1, food2, drink]) == None
  {
    // Dafny compares the two names with each entry of `PrototypeName` by itself.
  }

  /** A record whose category is an inherited name makes the grouping throw on
      that name, whatever follows it, as long as nothing before it does. */
  lemma InheritedKeyThrows(before: seq<ServiceRecord>, r: ServiceRecord, after: seq<ServiceRecord>)
    requires FirstInheritedKey(before).None? && InheritedKey(r.category)
    ensures FirstInheritedKey(before + [r] + after) == Some(r.category)
  {
    var xs := before + [r] + after;
    assert xs[|before|] == r;
    assert forall j :: 0 <= j < |before| ==> xs[j] == before[j];
  }

  /** The instance for "constructor", the first name on the list. */
  lemma ConstructorKeyThrows(before: seq<ServiceRecord>, r: ServiceRecord, after: seq<ServiceRecord>)
    requires FirstInheritedKey(before).None? && r.category == "constructor"
    ensures FirstInheritedKey(before + [r] + after) == Some("constructor")
  {
    assert InheritedKey("constructor") by { assert PrototypeName(0) == "constructor"; }
    InheritedKeyThrows(before, r, after);
  }
}
