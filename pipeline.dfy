/**
  The filter/sort pipeline behind `applyFilters` (one brand's models) and
  `showAllModels` (every brand's models, tagged with their brand's name):
  a case-insensitive substring search, then one of five orders.
 */
module Pipeline {
  import opened Wrappers
  import opened Text
  import opened Sequences
  import opened StableSort
  import opened Catalog
  import opened Display

  datatype SortOrder = Default | PriceAsc | PriceDesc | NameAsc | NameDesc

  /** The `switch (sortOrder)`: four recognised values of the sort select;
      every other value keeps the current order. */
  function ParseSortOrder(value: string): (o: SortOrder)
    ensures o == PriceAsc <==> value == "price-asc"
    ensures o == PriceDesc <==> value == "price-desc"
    ensures o == NameAsc <==> value == "name-asc"
    ensures o == NameDesc <==> value == "name-desc"
  {
    if value == "price-asc" then PriceAsc
    else if value == "price-desc" then PriceDesc
    else if value == "name-asc" then NameAsc
    else if value == "name-desc" then NameDesc
    else Default
  }

  /** The single-brand search: the query occurs in the name or the description,
      both sides lower-cased. */
  predicate MatchesInBrand(m: Model, query: string) {
    || Contains(Lower(m.name), Lower(query))
    || Contains(Lower(m.description), Lower(query))
  }

  function BrandNameOf(m: Model): string {
    if m.brandName.Some? then m.brandName.value else ""
  }

  /** The all-brands search also looks at the brand name. */
  predicate MatchesAcrossBrands(m: Model, query: string) {
    MatchesInBrand(m, query) || Contains(Lower(BrandNameOf(m)), Lower(query))
  }

  /** Every model matches the empty query, in either scope. */
  lemma AllMatchEmptyQuery(models: seq<Model>)
    ensures forall k :: 0 <= k < |models| ==> MatchesInBrand(models[k], "") && MatchesAcrossBrands(models[k], "")
  {
    forall k | 0 <= k < |models|
      ensures MatchesInBrand(models[k], "") && MatchesAcrossBrands(models[k], "")
    {
      ContainsEmpty(Lower(models[k].name));
    }
  }

  /** `if (searchQuery) models = models.filter(...)`: an order-preserving
      selection of the brand's models, each of which matches. */
  function SearchInBrand(models: seq<Model>, query: string): (r: seq<Model>)
    ensures |r| <= |models| && IsSubsequence(r, models)
    ensures forall k :: 0 <= k < |r| ==> MatchesInBrand(r[k], query)
  {
    if query != "" then
      FilterIsSubsequence(models, (m: Model) => MatchesInBrand(m, query));
      Filter(models, (m: Model) => MatchesInBrand(m, query))
    else
      AllMatchEmptyQuery(models);
      FilterIsSubsequence(models, (m: Model) => MatchesInBrand(m, query));
      FilterAll(models, (m: Model) => MatchesInBrand(m, query));
      models
  }

  /** The all-brands search: the same, with the brand name as a third field. */
  function SearchAcrossBrands(models: seq<Model>, query: string): (r: seq<Model>)
    ensures |r| <= |models| && IsSubsequence(r, models)
    ensures forall k :: 0 <= k < |r| ==> MatchesAcrossBrands(r[k], query)
  {
    if query != "" then
      FilterIsSubsequence(models, (m: Model) => MatchesAcrossBrands(m, query));
      Filter(models, (m: Model) => MatchesAcrossBrands(m, query))
    else
      AllMatchEmptyQuery(models);
      FilterIsSubsequence(models, (m: Model) => MatchesAcrossBrands(m, query));
      FilterAll(models, (m: Model) => MatchesAcrossBrands(m, query));
      models
  }

  /** The search keeps the scope's order and keeps exactly the matching
      models, each as often as it occurs in the scope; with an empty query
      every model matches. */
  lemma SearchInBrandExact(models: seq<Model>, query: string, x: Model)
    ensures IsSubsequence(SearchInBrand(models, query), models)
    ensures multiset(SearchInBrand(models, query))[x]
         == if MatchesInBrand(x, query) then multiset(models)[x] else 0
  {
    var p := (m: Model) => MatchesInBrand(m, query);
    if query != "" {
      FilterIsSubsequence(models, p);
      FilterExact(models, p, x);
    } else {
      FilterIsSubsequence(models, p);
      EmptyQueryMatchesAll(models);
      ContainsEmpty(Lower(x.name));
    }
  }

  /** Searching every brand's models of a catalog split in two gives the
      searches of the two parts, one after the other: each brand's matches
      sit together, in catalog order. */
  lemma SearchAcrossBrandsSplit(a: seq<Brand>, b: seq<Brand>, query: string)
    ensures SearchAcrossBrands(Flatten(a + b), query)
         == SearchAcrossBrands(Flatten(a), query) + SearchAcrossBrands(Flatten(b), query)
  {
    FlattenConcat(a, b);
    FilterConcat(Flatten(a), Flatten(b), (m: Model) => MatchesAcrossBrands(m, query));
  }

  lemma SearchAcrossBrandsExact(models: seq<Model>, query: string, x: Model)
    ensures IsSubsequence(SearchAcrossBrands(models, query), models)
    ensures multiset(SearchAcrossBrands(models, query))[x]
         == if MatchesAcrossBrands(x, query) then multiset(models)[x] else 0
  {
    var p := (m: Model) => MatchesAcrossBrands(m, query);
    if query != "" {
      FilterIsSubsequence(models, p);
      FilterExact(models, p, x);
    } else {
      EmptyQueryMatchesAll(models);
      FilterIsSubsequence(models, p);
      ContainsEmpty(Lower(x.name));
    }
  }

  /** Skipping the filter for an empty query changes nothing: the filter
      would keep every model of either scope. */
  lemma EmptyQueryMatchesAll(models: seq<Model>)
    ensures Filter(models, (m: Model) => MatchesInBrand(m, "")) == models
    ensures Filter(models, (m: Model) => MatchesAcrossBrands(m, "")) == models
  {
    forall k | 0 <= k < |models| ensures MatchesInBrand(models[k], "") {
      ContainsEmpty(Lower(models[k].name));
    }
    FilterAll(models, (m: Model) => MatchesInBrand(m, ""));
    FilterAll(models, (m: Model) => MatchesAcrossBrands(m, ""));
  }

  /** The comparators of the four sort cases, read as "may stay before":
      `(a.price || 0) - (b.price || 0) <= 0` and so on; `nameLe` stands for
      `localeCompare(x, y) <= 0`. */
  function OrderLe(order: SortOrder, nameLe: (string, string) -> bool): (Model, Model) -> bool {
    match order
    case PriceAsc => (a: Model, b: Model) => EffectivePrice(a) <= EffectivePrice(b)
    case PriceDesc => (a: Model, b: Model) => EffectivePrice(b) <= EffectivePrice(a)
    case NameAsc => (a: Model, b: Model) => nameLe(Lower(a.name), Lower(b.name))
    case NameDesc => (a: Model, b: Model) => nameLe(Lower(b.name), Lower(a.name))
    case Default => (a: Model, b: Model) => true
  }

  lemma OrderLePreorder(order: SortOrder, nameLe: (string, string) -> bool)
    requires TotalPreorder(nameLe)
    ensures TotalPreorder(OrderLe(order, nameLe))
  {
    var le := OrderLe(order, nameLe);
    forall a, b ensures le(a, b) || le(b, a) {
      assert nameLe(Lower(a.name), Lower(b.name)) || nameLe(Lower(b.name), Lower(a.name));
    }
    forall a, b, c | le(a, b) && le(b, c) ensures le(a, c) {
      assert nameLe(Lower(a.name), Lower(b.name)) && nameLe(Lower(b.name), Lower(c.name)) ==>
        nameLe(Lower(a.name), Lower(c.name));
      assert nameLe(Lower(c.name), Lower(b.name)) && nameLe(Lower(b.name), Lower(a.name)) ==>
        nameLe(Lower(c.name), Lower(a.name));
    }
  }

  /** The sort step: a stable sort by the order's comparator, or no sort at all. */
  function SortModels(models: seq<Model>, order: SortOrder, nameLe: (string, string) -> bool): (r: seq<Model>)
    ensures multiset(r) == multiset(models)
    ensures order == Default ==> r == models
  {
    if order == Default then models else SortBy(models, OrderLe(order, nameLe))
  }

  /** A model with the given effective price, to name its class of equal prices. */
  function PriceWitness(p: nat): (m: Model)
    ensures EffectivePrice(m) == p
  {
    Model("", "", Some(p), false, [], "", None)
  }

  /** 'price-asc': prices never decrease, and models of equal effective price
      (every priceless one counting as 0) keep their relative order. */
  lemma PriceAscSpec(models: seq<Model>, nameLe: (string, string) -> bool, p: nat)
    ensures var r := SortModels(models, PriceAsc, nameLe);
      forall i, j :: 0 <= i < j < |r| ==> EffectivePrice(r[i]) <= EffectivePrice(r[j])
    ensures Filter(SortModels(models, PriceAsc, nameLe), (m: Model) => EffectivePrice(m) == p)
         == Filter(models, (m: Model) => EffectivePrice(m) == p)
  {
    var le := OrderLe(PriceAsc, nameLe);
    assert TotalPreorder(le);
    SortBySorted(models, le);
    SortByStable(models, le, PriceWitness(p));
    FilterExtensional(SortBy(models, le), EquivTo(le, PriceWitness(p)), (m: Model) => EffectivePrice(m) == p);
    FilterExtensional(models, EquivTo(le, PriceWitness(p)), (m: Model) => EffectivePrice(m) == p);
  }

  /** 'price-desc': prices never increase; equal prices keep their order. */
  lemma PriceDescSpec(models: seq<Model>, nameLe: (string, string) -> bool, p: nat)
    ensures var r := SortModels(models, PriceDesc, nameLe);
      forall i, j :: 0 <= i < j < |r| ==> EffectivePrice(r[i]) >= EffectivePrice(r[j])
    ensures Filter(SortModels(models, PriceDesc, nameLe), (m: Model) => EffectivePrice(m) == p)
         == Filter(models, (m: Model) => EffectivePrice(m) == p)
  {
    var le := OrderLe(PriceDesc, nameLe);
    assert TotalPreorder(le);
    SortBySorted(models, le);
    SortByStable(models, le, PriceWitness(p));
    FilterExtensional(SortBy(models, le), EquivTo(le, PriceWitness(p)), (m: Model) => EffectivePrice(m) == p);
    FilterExtensional(models, EquivTo(le, PriceWitness(p)), (m: Model) => EffectivePrice(m) == p);
  }

  /** 'name-asc': the lower-cased names are in `nameLe` order, and models
      whose names compare equal to that of any `k` keep their relative order. */
  lemma NameAscSpec(models: seq<Model>, nameLe: (string, string) -> bool, k: Model)
    requires TotalPreorder(nameLe)
    ensures var r := SortModels(models, NameAsc, nameLe);
      forall i, j :: 0 <= i < j < |r| ==> nameLe(Lower(r[i].name), Lower(r[j].name))
    ensures Filter(SortModels(models, NameAsc, nameLe), EquivTo(OrderLe(NameAsc, nameLe), k))
         == Filter(models, EquivTo(OrderLe(NameAsc, nameLe), k))
  {
    var le := OrderLe(NameAsc, nameLe);
    OrderLePreorder(NameAsc, nameLe);
    SortBySorted(models, le);
    SortByStable(models, le, k);
    NameAscOrdered(SortBy(models, le), nameLe);
  }

  lemma NameAscOrdered(r: seq<Model>, nameLe: (string, string) -> bool)
    requires Sorted(r, OrderLe(NameAsc, nameLe))
    ensures forall i, j :: 0 <= i < j < |r| ==> nameLe(Lower(r[i].name), Lower(r[j].name))
  {
    forall i, j | 0 <= i < j < |r| ensures nameLe(Lower(r[i].name), Lower(r[j].name)) {
      assert OrderLe(NameAsc, nameLe)(r[i], r[j]);
    }
  }

  /** 'name-desc': the lower-cased names are in reversed `nameLe` order;
      names that compare equal keep their relative order. */
  lemma NameDescSpec(models: seq<Model>, nameLe: (string, string) -> bool, k: Model)
    requires TotalPreorder(nameLe)
    ensures var r := SortModels(models, NameDesc, nameLe);
      forall i, j :: 0 <= i < j < |r| ==> nameLe(Lower(r[j].name), Lower(r[i].name))
    ensures Filter(SortModels(models, NameDesc, nameLe), EquivTo(OrderLe(NameDesc, nameLe), k))
         == Filter(models, EquivTo(OrderLe(NameDesc, nameLe), k))
  {
    var le := OrderLe(NameDesc, nameLe);
    OrderLePreorder(NameDesc, nameLe);
    SortBySorted(models, le);
    SortByStable(models, le, k);
    NameDescOrdered(SortBy(models, le), nameLe);
  }

  lemma NameDescOrdered(r: seq<Model>, nameLe: (string, string) -> bool)
    requires Sorted(r, OrderLe(NameDesc, nameLe))
    ensures forall i, j :: 0 <= i < j < |r| ==> nameLe(Lower(r[j].name), Lower(r[i].name))
  {
    forall i, j | 0 <= i < j < |r| ensures nameLe(Lower(r[j].name), Lower(r[i].name)) {
      assert OrderLe(NameDesc, nameLe)(r[i], r[j]);
    }
  }

  /** `applyFilters` with a brand selected: that brand's models, searched,
      then sorted. Each model of the brand appears as often as in the brand
      if it matches the query, and not at all otherwise. */
  function BrandView(brand: Brand, query: string, order: SortOrder, nameLe: (string, string) -> bool): (r: seq<Model>)
    ensures forall x :: multiset(r)[x] == if MatchesInBrand(x, query) then multiset(brand.models)[x] else 0
  {
    var matching := SearchInBrand(brand.models, query);
    forall x ensures multiset(matching)[x] == if MatchesInBrand(x, query) then multiset(brand.models)[x] else 0 {
      SearchInBrandExact(brand.models, query, x);
    }
    SortModels(matching, order, nameLe)
  }

  /** `showAllModels`: every brand's models, searched (brand names included),
      then sorted; each tagged model appears as often as in the all-brands
      list if it matches, and not at all otherwise. */
  function AllView(brands: seq<Brand>, query: string, order: SortOrder, nameLe: (string, string) -> bool): (r: seq<Model>)
    ensures forall x :: multiset(r)[x] == if MatchesAcrossBrands(x, query) then multiset(Flatten(brands))[x] else 0
  {
    var matching := SearchAcrossBrands(Flatten(brands), query);
    forall x ensures multiset(matching)[x] == if MatchesAcrossBrands(x, query) then multiset(Flatten(brands))[x] else 0 {
      SearchAcrossBrandsExact(Flatten(brands), query, x);
    }
    SortModels(matching, order, nameLe)
  }

  /** With no query and the default order a brand shows its own models
      unchanged, and the all-brands view shows the whole flattened catalog. */
  lemma ViewsUnfiltered(brand: Brand, brands: seq<Brand>, nameLe: (string, string) -> bool)
    ensures BrandView(brand, "", Default, nameLe) == brand.models
    ensures AllView(brands, "", Default, nameLe) == Flatten(brands)
    ensures |AllView(brands, "", Default, nameLe)| == TotalModels(brands)
  {
    FlattenLength(brands);
  }

  /** Example: Nike's two models under 'price-asc' show the estimated 90
      before the exact 120. */
  lemma NikeByPriceScenario(nameLe: (string, string) -> bool)
    ensures var airMax := Model("Air_Max", "", Some(120), false, [], "", None);
      var zoom := Model("Zoom", "", Some(90), true, [], "", None);
      BrandView(Brand("Nike", "", [airMax, zoom]), "", PriceAsc, nameLe) == [zoom, airMax]
  {
    var airMax := Model("Air_Max", "", Some(120), false, [], "", None);
    var zoom := Model("Zoom", "", Some(90), true, [], "", None);
    var le := OrderLe(PriceAsc, nameLe);
    assert SortBy([zoom], le) == [zoom] by {
      assert [zoom][1..] == [];
      assert Insert(zoom, [], le) == [zoom];
    }
    assert Insert(airMax, [zoom], le) == [zoom, airMax] by {
      assert !le(airMax, zoom);
      assert [zoom][1..] == [];
      assert Insert(airMax, [], le) == [airMax];
    }
    assert [airMax, zoom][1..] == [zoom];
  }

  /** The same example's price lines: "≈ $90" for Zoom, "$120" for Air_Max. */
  lemma NikeCardScenario()
    ensures CardPriceLabel(Model("Zoom", "", Some(90), true, [], "", None)) == "≈ $90"
    ensures CardPriceLabel(Model("Air_Max", "", Some(120), false, [], "", None)) == "$120"
  {
    NikePricesText();
    TruthyPriceLabel(Model("Zoom", "", Some(90), true, [], "", None));
    TruthyPriceLabel(Model("Air_Max", "", Some(120), false, [], "", None));
  }

  lemma TruthyPriceLabel(m: Model)
    requires HasPrice(m)
    ensures CardPriceLabel(m) == (if m.priceEstimated then ApproxPrefix else ExactPrefix) + NatToString(m.price.value)
  {
  }

  lemma NikePricesText()
    ensures ApproxPrefix + NatToString(90) == "≈ $90" && ExactPrefix + NatToString(120) == "$120"
  {
    assert NatToString(9) == "9";
    assert NatToString(12) == "12" by { assert NatToString(1) == "1"; }
  }

  /** Example: the query "air" over Nike (Air_Max) and Puma (Suede),
      no brand selected, finds exactly Air_Max, tagged with "Nike". */
  lemma AirSearchScenario(nameLe: (string, string) -> bool)
    ensures var airMax := Model("Air_Max", "", Some(120), false, [], "", None);
      var suede := Model("Suede", "", None, false, [], "", None);
      AllView([Brand("Nike", "", [airMax]), Brand("Puma", "", [suede])], "air", Default, nameLe)
        == [Tag(airMax, "Nike")]
  {
    var airMax := Model("Air_Max", "", Some(120), false, [], "", None);
    var suede := Model("Suede", "", None, false, [], "", None);
    var brands := [Brand("Nike", "", [airMax]), Brand("Puma", "", [suede])];
    var a, b := Tag(airMax, "Nike"), Tag(suede, "Puma");
    AirScenarioFlatten(airMax, suede);
    AirScenarioMatches();
    FilterKeepsFirstOfTwo(a, b, (m: Model) => MatchesAcrossBrands(m, "air"));
  }

  lemma FilterKeepsFirstOfTwo<T>(a: T, b: T, p: T -> bool)
    requires p(a) && !p(b)
    ensures Filter([a, b], p) == [a]
  {
    assert [a, b][1..] == [b];
    assert [b][1..] == [];
  }

  lemma AirScenarioFlatten(airMax: Model, suede: Model)
    ensures Flatten([Brand("Nike", "", [airMax]), Brand("Puma", "", [suede])])
         == [Tag(airMax, "Nike"), Tag(suede, "Puma")]
  {
    var nike, puma := Brand("Nike", "", [airMax]), Brand("Puma", "", [suede]);
    assert [nike, puma][..1] == [nike];
    assert [nike][..0] == [];
    assert TagAll([airMax], "Nike") == [Tag(airMax, "Nike")];
    assert TagAll([suede], "Puma") == [Tag(suede, "Puma")];
    assert Flatten([nike]) == [Tag(airMax, "Nike")];
    assert Flatten([nike, puma]) == Flatten([nike]) + TagAll([suede], "Puma");
  }

  lemma AirScenarioMatches()
    ensures MatchesAcrossBrands(Tag(Model("Air_Max", "", Some(120), false, [], "", None), "Nike"), "air")
    ensures !MatchesAcrossBrands(Tag(Model("Suede", "", None, false, [], "", None), "Puma"), "air")
  {
    AirMaxMatches();
    SuedeDoesNotMatch();
    MatchesByName(Tag(Model("Air_Max", "", Some(120), false, [], "", None), "Nike"), "air");
    MatchesNowhere(Tag(Model("Suede", "", None, false, [], "", None), "Puma"), "air");
  }

  lemma MatchesByName(m: Model, query: string)
    requires Contains(Lower(m.name), Lower(query))
    ensures MatchesAcrossBrands(m, query)
  {
  }

  lemma MatchesNowhere(m: Model, query: string)
    requires !Contains(Lower(m.name), Lower(query))
    requires !Contains(Lower(m.description), Lower(query))
    requires !Contains(Lower(BrandNameOf(m)), Lower(query))
    ensures !MatchesAcrossBrands(m, query)
  {
  }

  lemma AirMaxMatches()
    ensures Contains(Lower("Air_Max"), Lower("air"))
  {
    assert Lower("air") == "air";
    assert Lower("Air_Max") == "air_max";
    assert OccursAt("air_max", "air", 0);
  }

  lemma SuedeDoesNotMatch()
    ensures !Contains(Lower("Suede"), Lower("air"))
    ensures !Contains(Lower("Puma"), Lower("air"))
    ensures !Contains(Lower(""), Lower("air"))
  {
    assert Lower("air") == "air";
    assert Lower("Suede") == "suede";
    NotContainsAir("suede");
    assert Lower("Puma") == "puma";
    NotContainsAir("puma");
    NotContainsAir(Lower(""));
  }

  lemma NotContainsAir(s: string)
    requires forall k :: 0 <= k < |s| ==> s[k] != 'i'
    ensures !Contains(s, "air")
  {
    forall i: nat | i + 3 <= |s| ensures !OccursAt(s, "air", i) {
      assert s[i..i + 3][1] == s[i + 1];
    }
  }
}
