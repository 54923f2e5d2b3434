/** The listing helpers: normalising an item name so that the configured
    names and the inventory's names can be compared, pairing inventory
    items with configured targets, and pricing a listing. */
module ListingHelpers {
  import opened Common
  import opened Text
  import opened Models

  /** A name variant and the name it stands for. */
  datatype Replacement = Replacement(key: string, value: string)

  /** The name variants, in the order they are tried. */
  const Replacements: seq<Replacement> := [
    Replacement("12.7mm rifle bullets", "12.7 rifle bullets"),
    Replacement("14mm rifle bullets", "14 rifle bullets"),
    Replacement("9mm rifle bullets", "9 rifle bullets"),
    Replacement("10 gauge shells", "10 gauge shells"),
    Replacement("12 gauge shells", "12 gauge shells"),
    Replacement("energy cell", "energy cell"),
    Replacement("gasoline", "gasoline")
  ]

  /** The value of the first entry whose key occurs in `s`. */
  function FirstReplacement(s: string, table: seq<Replacement>): Option<string>
  {
    if |table| == 0 then None
    else if Contains(s, table[0].key) then Some(table[0].value)
    else FirstReplacement(s, table[1..])
  }

  /** The lookup finds nothing exactly when no key occurs, and otherwise
      the value of the first key that occurs. */
  lemma {:induction false} FirstReplacementSpec(s: string, table: seq<Replacement>)
    ensures FirstReplacement(s, table).None? <==> forall k :: 0 <= k < |table| ==> !Contains(s, table[k].key)
    ensures FirstReplacement(s, table).Some? ==>
              exists k :: 0 <= k < |table| && Contains(s, table[k].key) && FirstReplacement(s, table).value == table[k].value
                          && forall j :: 0 <= j < k ==> !Contains(s, table[j].key)
  {
    if |table| > 0 && !Contains(s, table[0].key) {
      FirstReplacementSpec(s, table[1..]);
      assert forall k :: 1 <= k < |table| ==> table[k] == table[1..][k - 1];
      var r := FirstReplacement(s, table[1..]);
      if r.Some? {
        var k :| 0 <= k < |table[1..]| && Contains(s, table[1..][k].key) && r.value == table[1..][k].value
                 && forall j :: 0 <= j < k ==> !Contains(s, table[1..][j].key);
        assert table[k + 1] == table[1..][k];
      }
    }
  }

  /** The entry at `i` is the one used when its key is the first to occur. */
  lemma {:induction false} FirstReplacementAt(s: string, table: seq<Replacement>, i: nat)
    requires i < |table| && Contains(s, table[i].key)
    requires forall k :: 0 <= k < i ==> !Contains(s, table[k].key)
    ensures FirstReplacement(s, table) == Some(table[i].value)
  {
    if i > 0 {
      assert !Contains(s, table[0].key);
      assert forall k :: 0 <= k < i - 1 ==> table[1..][k] == table[k + 1];
      FirstReplacementAt(s, table[1..], i - 1);
    }
  }

  /** `normalize_item_name`: stripped and lower-cased, then replaced by the
      name of the first variant it contains. */
  function NormalizeItemName(name: string): string
  {
    var n := Lower(Strip(name));
    match FirstReplacement(n, Replacements)
    case Some(v) => v
    case None => n
  }

  /** A name that is already stripped and lower case, and whose first
      matching variant (if any) stands for the name itself, normalises to
      itself. */
  lemma NormalFixed(v: string)
    requires Clean(v)
    requires FirstReplacement(v, Replacements) in {None, Some(v)}
    ensures NormalizeItemName(v) == v
  {
    StripOfStripped(v);
    LowerOfLower(v);
  }

  /** No key of the table occurs in `v` before position `i`, shown one
      key at a time by a character of the key that `v` lacks. */
  lemma NoKeyBefore(v: string, i: nat, witnesses: seq<char>)
    requires |witnesses| == i && Witnesses(v, witnesses)
    ensures forall k :: 0 <= k < i ==> !Contains(v, Replacements[k].key)
  {
    forall k | 0 <= k < i ensures !Contains(v, Replacements[k].key) {
      NotContainsByChar(v, Replacements[k].key, witnesses[k]);
    }
  }

  /** A stripped lower-case name is already normal. */
  predicate Clean(v: string)
  {
    && (v == [] || (!IsSpace(v[0]) && !IsSpace(v[|v| - 1])))
    && forall i :: 0 <= i < |v| ==> !('A' <= v[i] <= 'Z')
  }

  /** A clean name without 'm' or 'g' contains no key and normalises to
      itself. */
  lemma KeylessFixed(v: string)
    requires Clean(v) && 'm' !in v && 'g' !in v
    ensures NormalizeItemName(v) == v
  {
    assert Witnesses(v, "mmmgggg");
    NoKeyBefore(v, 7, "mmmgggg");
    FirstReplacementSpec(v, Replacements);
    NormalFixed(v);
  }

  /** Each of the first `|w|` keys holds the matching character of `w`,
      which `v` lacks. */
  predicate Witnesses(v: string, w: seq<char>)
  {
    |w| <= |Replacements| && forall k :: 0 <= k < |w| ==> w[k] in Replacements[k].key && w[k] !in v
  }

  /** A clean name that is the key at `i`, and contains no earlier key,
      normalises to itself. */
  lemma OwnKeyFixed(v: string, i: nat, witnesses: seq<char>)
    requires Clean(v) && i < |Replacements| && Replacements[i].key == v && Replacements[i].value == v
    requires |witnesses| == i && Witnesses(v, witnesses)
    ensures NormalizeItemName(v) == v
  {
    NoKeyBefore(v, i, witnesses);
    ContainsSelf(v);
    FirstReplacementAt(v, Replacements, i);
    NormalFixed(v);
  }

  /** The replacement names are clean. */
  lemma ValuesClean(i: nat)
    requires i < |Replacements|
    ensures Clean(Replacements[i].value)
  {
    if i < 3 {
      BulletValuesClean(i);
    } else {
      OtherValuesClean(i);
    }
  }

  lemma BulletValuesClean(i: nat)
    requires i < 3
    ensures Clean(Replacements[i].value)
  {
  }

  lemma OtherValuesClean(i: nat)
    requires 3 <= i < |Replacements|
    ensures Clean(Replacements[i].value)
  {
  }

  /** The first three keys hold an 'm'. */
  lemma BulletKeysHaveM()
    ensures forall k :: 0 <= k < 3 ==> 'm' in Replacements[k].key
  {
    assert Replacements[0].key[4] == 'm';
    assert Replacements[1].key[2] == 'm';
    assert Replacements[2].key[1] == 'm';
  }

  /** The characters that rule out the earlier keys in the names that
      stand for themselves, one name at a time. */
  lemma TenGaugeWitnesses()
    ensures Witnesses(Replacements[3].value, "mmm")
  {
    BulletKeysHaveM();
    assert Replacements[3].value == "10 gauge shells";
    SelfNamesLack();
  }

  lemma TwelveGaugeWitnesses()
    ensures Witnesses(Replacements[4].value, "mmm0")
  {
    BulletKeysHaveM();
    GaugeKeysHold();
    assert Replacements[4].value == "12 gauge shells";
    SelfNamesLack();
  }

  lemma EnergyCellWitnesses()
    ensures Witnesses(Replacements[5].value, "mmmhh")
  {
    BulletKeysHaveM();
    GaugeKeysHold();
    assert Replacements[5].value == "energy cell";
    SelfNamesLack();
  }

  lemma GasolineWitnesses()
    ensures Witnesses(Replacements[6].value, "mmmhhc")
  {
    BulletKeysHaveM();
    GaugeKeysHold();
    assert Replacements[6].value == "gasoline";
    SelfNamesLack();
  }

  /** Characters of the later keys that the witnesses use. */
  lemma GaugeKeysHold()
    ensures '0' in Replacements[3].key && 'h' in Replacements[3].key
    ensures 'h' in Replacements[4].key && 'c' in Replacements[5].key
  {
    assert Replacements[3].key[1] == '0' && Replacements[3].key[10] == 'h';
    assert Replacements[4].key[10] == 'h' && Replacements[5].key[7] == 'c';
  }

  /** Characters that the names standing for themselves lack. */
  lemma SelfNamesLack()
    ensures 'm' !in "10 gauge shells"
    ensures 'm' !in "12 gauge shells" && '0' !in "12 gauge shells"
    ensures 'm' !in "energy cell" && 'h' !in "energy cell"
    ensures 'm' !in "gasoline" && 'h' !in "gasoline" && 'c' !in "gasoline"
  {
  }

  /** The replacement names normalise to themselves. */
  lemma ReplacementValuesFixed(i: nat)
    requires i < |Replacements|
    ensures NormalizeItemName(Replacements[i].value) == Replacements[i].value
  {
    ValuesClean(i);
    if i < 3 {
      BulletValueFixed(i);
    } else {
      OwnValueFixed(i);
    }
  }

  lemma BulletValueFixed(i: nat)
    requires i < 3 && Clean(Replacements[i].value)
    ensures NormalizeItemName(Replacements[i].value) == Replacements[i].value
  {
    BulletValuesKeyless(i);
    KeylessFixed(Replacements[i].value);
  }

  /** The bullet names hold neither 'm' nor 'g'. */
  lemma BulletValuesKeyless(i: nat)
    requires i < 3
    ensures 'm' !in Replacements[i].value && 'g' !in Replacements[i].value
  {
    if i == 0 {
      assert Replacements[0].value == "12.7 rifle bullets";
      LacksMG("12.7 rifle bullets");
    } else if i == 1 {
      assert Replacements[1].value == "14 rifle bullets";
      LacksMG("14 rifle bullets");
    } else {
      assert Replacements[2].value == "9 rifle bullets";
      LacksMG("9 rifle bullets");
    }
  }

  /** The bullet names, one at a time. */
  lemma LacksMG(v: string)
    requires v == "12.7 rifle bullets" || v == "14 rifle bullets" || v == "9 rifle bullets"
    ensures 'm' !in v && 'g' !in v
  {
    if v == "12.7 rifle bullets" {
      assert 'm' !in "12.7 rifle bullets" && 'g' !in "12.7 rifle bullets";
    } else if v == "14 rifle bullets" {
      assert 'm' !in "14 rifle bullets" && 'g' !in "14 rifle bullets";
    } else {
      assert 'm' !in "9 rifle bullets" && 'g' !in "9 rifle bullets";
    }
  }

  lemma OwnValueFixed(i: nat)
    requires 3 <= i < |Replacements| && Clean(Replacements[i].value)
    ensures NormalizeItemName(Replacements[i].value) == Replacements[i].value
  {
    var w := if i == 3 then "mmm" else if i == 4 then "mmm0" else if i == 5 then "mmmhh" else "mmmhhc";
    if i == 3 {
      TenGaugeWitnesses();
    } else if i == 4 {
      TwelveGaugeWitnesses();
    } else if i == 5 {
      EnergyCellWitnesses();
    } else {
      GasolineWitnesses();
    }
    OwnKeyFixed(Replacements[i].value, i, w);
  }

  /** A name that some variant replaces normalises to a replacement
      name, which is fixed. */
  lemma IdempotentWhenReplaced(name: string)
    requires FirstReplacement(Lower(Strip(name)), Replacements).Some?
    ensures NormalizeItemName(NormalizeItemName(name)) == NormalizeItemName(name)
  {
    var n := Lower(Strip(name));
    FirstReplacementSpec(n, Replacements);
    var k :| 0 <= k < |Replacements| && FirstReplacement(n, Replacements).value == Replacements[k].value;
    assert NormalizeItemName(name) == Replacements[k].value;
    ReplacementValuesFixed(k);
  }

  /** Stripping and lower-casing gives a clean name. */
  lemma LowerStripIsClean(name: string)
    ensures Clean(Lower(Strip(name)))
  {
    StripEnds(name);
    LowerKeepsStripped(Strip(name));
  }

  /** A name no variant replaces normalises to its stripped lower-case
      form, which is clean and still not replaced. */
  lemma IdempotentWhenKept(name: string)
    requires FirstReplacement(Lower(Strip(name)), Replacements).None?
    ensures NormalizeItemName(NormalizeItemName(name)) == NormalizeItemName(name)
  {
    var n := Lower(Strip(name));
    assert NormalizeItemName(name) == n;
    LowerStripIsClean(name);
    NormalFixed(n);
  }

  /** Normalising twice is normalising once. */
  lemma NormalizeIdempotent(name: string)
    ensures NormalizeItemName(NormalizeItemName(name)) == NormalizeItemName(name)
  {
    if FirstReplacement(Lower(Strip(name)), Replacements).Some? {
      IdempotentWhenReplaced(name);
    } else {
      IdempotentWhenKept(name);
    }
  }

  // ---------------------------------------------------------------------
  // Pairing inventory items with targets

  datatype MatchKind = Exact | Partial

  datatype ItemMatch = ItemMatch(item: InventoryItemData, target: string, kind: MatchKind)

  /** Two normalised names are related when one contains the other. */
  predicate Related(a: string, b: string)
  {
    Contains(a, b) || Contains(b, a)
  }

  /** The first target, in order, whose name under `norm` equals or is
      related to the inventory item's name under `norm`. The matching is
      stated for any normaliser; `FindMatches` uses `NormalizeItemName`. */
  function MatchWith(norm: string -> string, item: InventoryItemData, targets: seq<string>): (r: Option<ItemMatch>)
    ensures r.Some? ==> r.value.item == item && r.value.target in targets
    ensures r.Some? ==> (r.value.kind == Exact <==> norm(r.value.target) == norm(item.name))
    ensures r.Some? ==> Related(norm(item.name), norm(r.value.target))
    ensures r.None? <==> forall k :: 0 <= k < |targets| ==> !Related(norm(item.name), norm(targets[k]))
    ensures r.Some? ==> exists k :: 0 <= k < |targets| && r.value.target == targets[k]
                                    && forall j :: 0 <= j < k ==> !Related(norm(item.name), norm(targets[j]))
  {
    if |targets| == 0 then None
    else
      var own := norm(item.name);
      var t := norm(targets[0]);
      if t == own then
        ContainsSelf(own);
        Some(ItemMatch(item, targets[0], Exact))
      else if Related(own, t) then Some(ItemMatch(item, targets[0], Partial))
      else
        var r := MatchWith(norm, item, targets[1..]);
        assert forall k :: 1 <= k < |targets| ==> targets[k] == targets[1..][k - 1];
        if r.Some? then
          var k :| 0 <= k < |targets[1..]| && r.value.target == targets[1..][k]
                   && forall j :: 0 <= j < k ==> !Related(own, norm(targets[1..][j]));
          assert r.value.target == targets[k + 1];
          r
        else
          r
  }

  /** The match test as a value, for counting. */
  function HasMatchWith(norm: string -> string, targets: seq<string>): InventoryItemData -> bool
  {
    item => MatchWith(norm, item, targets).Some?
  }

  /** The matches of a list of inventory items: at most one per item, in
      inventory order. */
  function FindMatchesWith(norm: string -> string, items: seq<InventoryItemData>, targets: seq<string>): (r: seq<ItemMatch>)
    ensures |r| == CountWhere(items, HasMatchWith(norm, targets))
    ensures |r| <= |items|
  {
    if |items| == 0 then []
    else
      var rest := FindMatchesWith(norm, items[1..], targets);
      assert HasMatchWith(norm, targets)(items[0]) == MatchWith(norm, items[0], targets).Some?;
      match MatchWith(norm, items[0], targets)
      case Some(m) => [m] + rest
      case None => rest
  }

  /** Every reported match is the match of an inventory item. */
  lemma {:induction false} FindMatchesSound(norm: string -> string, items: seq<InventoryItemData>, targets: seq<string>, m: ItemMatch)
    requires m in FindMatchesWith(norm, items, targets)
    ensures m.item in items && MatchWith(norm, m.item, targets) == Some(m)
  {
    var rest := FindMatchesWith(norm, items[1..], targets);
    if m in rest {
      FindMatchesSound(norm, items[1..], targets, m);
    } else {
      assert MatchWith(norm, items[0], targets) == Some(m);
    }
  }

  /** Every item that matches has its match in the result, at the position
      given by how many matching items precede it: the result lists the
      matches in inventory order, none left out. */
  lemma {:induction false} FindMatchesComplete(norm: string -> string, items: seq<InventoryItemData>, targets: seq<string>, k: nat)
    requires k < |items| && MatchWith(norm, items[k], targets).Some?
    ensures CountWhere(items[..k], HasMatchWith(norm, targets)) < |FindMatchesWith(norm, items, targets)|
    ensures FindMatchesWith(norm, items, targets)[CountWhere(items[..k], HasMatchWith(norm, targets))]
         == MatchWith(norm, items[k], targets).value
  {
    var p := HasMatchWith(norm, targets);
    assert p(items[0]) == MatchWith(norm, items[0], targets).Some?;
    if k == 0 {
      assert items[..0] == [];
    } else {
      FindMatchesComplete(norm, items[1..], targets, k - 1);
      CountWhereCons(items, k, p);
    }
  }

  /** `find_matching_inventory_item`, with the item names normalised. */
  function FindMatches(items: seq<InventoryItemData>, targets: seq<string>): (r: seq<ItemMatch>)
    ensures |r| == CountWhere(items, HasMatchWith(NormalizeItemName, targets)) && |r| <= |items|
    ensures forall m :: m in r ==> m.item in items && MatchWith(NormalizeItemName, m.item, targets) == Some(m)
    ensures forall k :: 0 <= k < |items| && MatchWith(NormalizeItemName, items[k], targets).Some? ==>
              && CountWhere(items[..k], HasMatchWith(NormalizeItemName, targets)) < |r|
              && r[CountWhere(items[..k], HasMatchWith(NormalizeItemName, targets))]
                 == MatchWith(NormalizeItemName, items[k], targets).value
  {
    var r := FindMatchesWith(NormalizeItemName, items, targets);
    forall m | m in r
      ensures m.item in items && MatchWith(NormalizeItemName, m.item, targets) == Some(m)
    {
      FindMatchesSound(NormalizeItemName, items, targets, m);
    }
    forall k | 0 <= k < |items| && MatchWith(NormalizeItemName, items[k], targets).Some?
      ensures && CountWhere(items[..k], HasMatchWith(NormalizeItemName, targets)) < |r|
              && r[CountWhere(items[..k], HasMatchWith(NormalizeItemName, targets))]
                 == MatchWith(NormalizeItemName, items[k], targets).value
    {
      FindMatchesComplete(NormalizeItemName, items, targets, k);
    }
    r
  }

  // ---------------------------------------------------------------------
  // Listing price

  /** The unit prices by normalised name fragment, in the order tried. */
  const UnitPrices: seq<(string, real)> := [
    ("12.7 rifle bullets", 9.0), ("14 rifle bullets", 10.5), ("9 rifle bullets", 9.0),
    ("10 gauge shells", 12.0), ("12 gauge shells", 13.0), ("energy cell", 12.0), ("gasoline", 2.5),
    ("painkiller", 25.0), ("bandage", 15.0), ("cooked fresh meat", 8.0)
  ]

  /** The unit price used when no fragment occurs in the name. */
  const DefaultUnitPrice: real := 5.0

  /** The markup applied to the unit price. */
  const ListingMarkup: real := 1.2

  /** Every listed unit price is positive. */
  lemma UnitPricesPositive()
    ensures forall k :: 0 <= k < |UnitPrices| ==> UnitPrices[k].1 > 0.0
  {
  }

  /** The unit price of the first fragment occurring in `name`. */
  function BaseUnitPrice(name: string, table: seq<(string, real)>): (p: real)
    ensures (forall k :: 0 <= k < |table| ==> !Contains(name, table[k].0)) ==> p == DefaultUnitPrice
    ensures p == DefaultUnitPrice || exists k :: 0 <= k < |table| && p == table[k].1 && Contains(name, table[k].0)
    ensures (forall k :: 0 <= k < |table| ==> table[k].1 > 0.0) ==> p > 0.0
  {
    if |table| == 0 then DefaultUnitPrice
    else if Contains(name, table[0].0) then table[0].1
    else
      assert forall k :: 1 <= k < |table| ==> table[k] == table[1..][k - 1];
      BaseUnitPrice(name, table[1..])
  }

  /** When the k-th fragment is the first one occurring in the name, the
      unit price is that fragment's: earlier fragments were tried and
      missed, later ones are never looked at. */
  lemma {:induction false} BaseUnitPriceFirstFragment(name: string, table: seq<(string, real)>, k: nat)
    requires k < |table| && Contains(name, table[k].0)
    requires forall j :: 0 <= j < k ==> !Contains(name, table[j].0)
    ensures BaseUnitPrice(name, table) == table[k].1
  {
    if k > 0 {
      var rest := table[1..];
      assert forall j :: 0 <= j < k - 1 ==> rest[j] == table[j + 1];
      BaseUnitPriceFirstFragment(name, rest, k - 1);
    }
  }

  /** The unit price of an item by its name, before the markup. */
  function ListingUnitPrice(name: string): (p: real)
    ensures p > 0.0
  {
    UnitPricesPositive();
    BaseUnitPrice(NormalizeItemName(name), UnitPrices)
  }

  /** A quantity at a unit price with the markup, truncated toward zero
      to whole dollars as Python's `int` does. */
  function MarkedUpTotal(unit: real, quantity: int): (r: int)
    ensures unit >= 0.0 && quantity >= 0 ==> 0 <= r && r as real <= unit * quantity as real * ListingMarkup < r as real + 1.0
  {
    var total := unit * quantity as real * ListingMarkup;
    assert unit >= 0.0 && quantity >= 0 ==> total >= 0.0 by {
      if unit >= 0.0 && quantity >= 0 {
        assert unit * quantity as real >= 0.0;
      }
    }
    Trunc(total)
  }

  /** `calculate_listing_price`: the total listing price, the unit price
      times the quantity with the markup, truncated to whole dollars. */
  function CalculateListingPrice(name: string, quantity: int): (r: int)
    ensures quantity >= 0 ==> 0 <= r
  {
    var unit := ListingUnitPrice(name);
    assert unit >= 0.0;
    MarkedUpTotal(unit, quantity)
  }

  /** The listing price is the marked-up total of the item's unit price,
      rounded down to whole dollars. */
  lemma ListingPriceTruncates(name: string, quantity: nat)
    ensures var r := CalculateListingPrice(name, quantity);
            r as real <= ListingUnitPrice(name) * quantity as real * ListingMarkup < r as real + 1.0
  {
    MarkedUpBounds(ListingUnitPrice(name), quantity);
  }

  /** The bounds of the truncated total, for a unit price given as a
      plain value. */
  lemma MarkedUpBounds(unit: real, quantity: nat)
    requires unit >= 0.0
    ensures var r := MarkedUpTotal(unit, quantity);
            r as real <= unit * quantity as real * ListingMarkup < r as real + 1.0
  {
  }

  /** An item with no known unit price lists at six dollars a unit. */
  lemma UnknownItemPrice(name: string, quantity: nat)
    requires forall k :: 0 <= k < |UnitPrices| ==> !Contains(NormalizeItemName(name), UnitPrices[k].0)
    ensures CalculateListingPrice(name, quantity) == 6 * quantity
  {
    assert BaseUnitPrice(NormalizeItemName(name), UnitPrices) == DefaultUnitPrice;
    var r := MarkedUpTotal(DefaultUnitPrice, quantity);
    assert DefaultUnitPrice * quantity as real * ListingMarkup == (6 * quantity) as real;
  }

  /** More units never cost less at a non-negative unit price. */
  lemma MarkedUpMonotone(unit: real, q1: nat, q2: nat)
    requires unit >= 0.0 && q1 <= q2
    ensures MarkedUpTotal(unit, q1) <= MarkedUpTotal(unit, q2)
  {
    assert unit * q1 as real <= unit * q2 as real;
    assert unit * q1 as real * ListingMarkup <= unit * q2 as real * ListingMarkup;
    var r1 := MarkedUpTotal(unit, q1);
    var r2 := MarkedUpTotal(unit, q2);
    assert r1 as real < r2 as real + 1.0;
  }

  /** More units never list for less. */
  lemma ListingPriceMonotone(name: string, q1: nat, q2: nat)
    requires q1 <= q2
    ensures CalculateListingPrice(name, q1) <= CalculateListingPrice(name, q2)
  {
    MarkedUpMonotone(ListingUnitPrice(name), q1, q2);
  }
}
