/**
  The catalog document: brands, each with its models, as loaded once from
  the data file and never changed afterwards; the all-brands list, the
  totals, the alphabetical brand list and the lookup by name.
 */
module Catalog {
  import opened Wrappers
  import opened Text
  import opened Sequences
  import opened StableSort

  /** A catalog model. An absent description or image is the empty string
      (the script only ever reads them as `x || default`); an absent size list
      is the empty list. `brandName` is set only on the copies made for the
      all-brands view. */
  datatype Model = Model(
    name: string,
    description: string,
    price: Option<nat>,
    priceEstimated: bool,
    sizes: seq<string>,
    image: string,
    brandName: Option<string>)

  /** A brand; an absent icon is the empty string, an absent model list the empty list. */
  datatype Brand = Brand(name: string, icon: string, models: seq<Model>)

  /** `{ ...model, brandName }`. */
  function Tag(m: Model, brandName: string): Model {
    m.(brandName := Some(brandName))
  }

  function TagAll(models: seq<Model>, brandName: string): seq<Model> {
    seq(|models|, k requires 0 <= k < |models| => Tag(models[k], brandName))
  }

  /** The all-brands list: every brand's models, brand after brand, each
      tagged with its brand's name. */
  function Flatten(brands: seq<Brand>): seq<Model> {
    if brands == [] then []
    else
      var last := brands[|brands| - 1];
      Flatten(brands[..|brands| - 1]) + TagAll(last.models, last.name)
  }

  /** `totalModels`: the sum of the brands' model counts. It is zero exactly
      when no brand has a model, and at least any one brand's count. */
  function TotalModels(brands: seq<Brand>): (n: nat)
    ensures n == 0 <==> forall k :: 0 <= k < |brands| ==> brands[k].models == []
    ensures forall k :: 0 <= k < |brands| ==> |brands[k].models| <= n
  {
    if brands == [] then 0
    else
      var init := brands[..|brands| - 1];
      assert forall k :: 0 <= k < |init| ==> init[k] == brands[k];
      TotalModels(init) + |brands[|brands| - 1].models|
  }

  /** The nested `forEach`/`push` loops that build the all-brands list. */
  method FlattenBrands(brands: seq<Brand>) returns (all: seq<Model>)
    ensures all == Flatten(brands)
  {
    all := [];
    var i := 0;
    while i < |brands|
      invariant 0 <= i <= |brands|
      invariant all == Flatten(brands[..i])
    {
      var brand := brands[i];
      var j := 0;
      while j < |brand.models|
        invariant 0 <= j <= |brand.models|
        invariant all == Flatten(brands[..i]) + TagAll(brand.models[..j], brand.name)
      {
        assert TagAll(brand.models[..j + 1], brand.name)
          == TagAll(brand.models[..j], brand.name) + [Tag(brand.models[j], brand.name)];
        all := all + [Tag(brand.models[j], brand.name)];
        j := j + 1;
      }
      assert brands[..i + 1][..i] == brands[..i];
      assert brand.models[..j] == brand.models;
      i := i + 1;
    }
    assert brands[..i] == brands;
  }

  /** The all-brands list is as long as the `totalModels` statistic says. */
  lemma {:induction false} FlattenLength(brands: seq<Brand>)
    ensures |Flatten(brands)| == TotalModels(brands)
  {
    if brands != [] {
      FlattenLength(brands[..|brands| - 1]);
    }
  }

  /** Flattening distributes over concatenation of brand lists. */
  lemma {:induction false} FlattenConcat(a: seq<Brand>, b: seq<Brand>)
    ensures Flatten(a + b) == Flatten(a) + Flatten(b)
  {
    if b == [] {
      assert a + b == a;
    } else {
      var init, last := b[..|b| - 1], b[|b| - 1];
      var ab := a + b;
      assert ab[..|ab| - 1] == a + init && ab[|ab| - 1] == last;
      assert Flatten(ab) == Flatten(a + init) + TagAll(last.models, last.name);
      FlattenConcat(a, init);
      assert Flatten(b) == Flatten(init) + TagAll(last.models, last.name);
    }
  }

  /** Brand order, then model order: model `j` of brand `i` sits right after
      the models of the brands before `i`, tagged with brand `i`'s name. */
  lemma {:induction false} FlattenAt(brands: seq<Brand>, i: nat, j: nat)
    requires i < |brands| && j < |brands[i].models|
    ensures TotalModels(brands[..i]) + j < |Flatten(brands)|
    ensures Flatten(brands)[TotalModels(brands[..i]) + j] == Tag(brands[i].models[j], brands[i].name)
  {
    var init, last := brands[..|brands| - 1], brands[|brands| - 1];
    var front := Flatten(init);
    assert Flatten(brands) == front + TagAll(last.models, last.name);
    if i == |brands| - 1 {
      assert brands[..i] == init;
      FlattenLength(init);
      assert (front + TagAll(last.models, last.name))[|front| + j] == TagAll(last.models, last.name)[j];
    } else {
      assert init[..i] == brands[..i] && init[i] == brands[i];
      FlattenAt(init, i, j);
    }
  }

  predicate SameName(a: string, b: string) {
    Lower(a) == Lower(b)
  }

  /** `brands.find(b => b.name.toLowerCase() === name.toLowerCase())`, as an index. */
  function FindBrand(brands: seq<Brand>, name: string): (r: Option<nat>)
    ensures r.Some? ==> r.value < |brands| && SameName(brands[r.value].name, name)
    ensures r.Some? ==> forall k :: 0 <= k < r.value ==> !SameName(brands[k].name, name)
    ensures r.None? <==> forall k :: 0 <= k < |brands| ==> !SameName(brands[k].name, name)
  {
    FindFirst(brands, (b: Brand) => SameName(b.name, name))
  }

  /** The brand-list comparator: `localeCompare` on the lower-cased names,
      given as a preorder `nameLe` on strings. */
  function BrandOrder(nameLe: (string, string) -> bool): (Brand, Brand) -> bool {
    (a: Brand, b: Brand) => nameLe(Lower(a.name), Lower(b.name))
  }

  lemma BrandOrderPreorder(nameLe: (string, string) -> bool)
    requires TotalPreorder(nameLe)
    ensures TotalPreorder(BrandOrder(nameLe))
  {
    var le := BrandOrder(nameLe);
    forall a, b ensures le(a, b) || le(b, a) {
      assert nameLe(Lower(a.name), Lower(b.name)) || nameLe(Lower(b.name), Lower(a.name));
    }
    forall a, b, c | le(a, b) && le(b, c) ensures le(a, c) {
      assert nameLe(Lower(a.name), Lower(b.name)) && nameLe(Lower(b.name), Lower(c.name));
    }
  }

  /** The brand list as rendered: a sorted copy of the catalog's brands. */
  function SortedBrands(brands: seq<Brand>, nameLe: (string, string) -> bool): (r: seq<Brand>)
    ensures |r| == |brands| && multiset(r) == multiset(brands)
  {
    SortBy(brands, BrandOrder(nameLe))
  }

  /** The brand list holds every brand once, in alphabetical order, brands
      with equal lower-cased names in catalog order. */
  lemma SortedBrandsSpec(brands: seq<Brand>, nameLe: (string, string) -> bool, k: Brand)
    requires TotalPreorder(nameLe)
    ensures multiset(SortedBrands(brands, nameLe)) == multiset(brands)
    ensures Sorted(SortedBrands(brands, nameLe), BrandOrder(nameLe))
    ensures Filter(SortedBrands(brands, nameLe), EquivTo(BrandOrder(nameLe), k))
         == Filter(brands, EquivTo(BrandOrder(nameLe), k))
  {
    BrandOrderPreorder(nameLe);
    SortBySorted(brands, BrandOrder(nameLe));
    SortByStable(brands, BrandOrder(nameLe), k);
  }

  function Min(a: nat, b: nat): nat {
    if a <= b then a else b
  }

  /** The footer list: `sortedBrands.slice(0, 4)`. */
  function FooterBrands(brands: seq<Brand>, nameLe: (string, string) -> bool): (r: seq<Brand>)
    ensures |r| == Min(4, |brands|) && multiset(r) <= multiset(brands)
  {
    var sorted := SortedBrands(brands, nameLe);
    var n := Min(4, |brands|);
    assert sorted == sorted[..n] + sorted[n..];
    assert multiset(sorted) == multiset(sorted[..n]) + multiset(sorted[n..]);
    sorted[..n]
  }

  /** The footer shows the first four brands of the brand list (all of them
      when there are fewer), in alphabetical order, and each of them sorts no
      later than every brand it leaves out. */
  lemma FooterBrandsSpec(brands: seq<Brand>, nameLe: (string, string) -> bool)
    requires TotalPreorder(nameLe)
    ensures FooterBrands(brands, nameLe) == SortedBrands(brands, nameLe)[..Min(4, |brands|)]
    ensures Sorted(FooterBrands(brands, nameLe), BrandOrder(nameLe))
    ensures |FooterBrands(brands, nameLe)| == Min(4, |brands|)
    ensures multiset(FooterBrands(brands, nameLe)) <= multiset(brands)
    ensures forall i, j :: 0 <= i < |FooterBrands(brands, nameLe)| <= j < |brands| ==>
      BrandOrder(nameLe)(FooterBrands(brands, nameLe)[i], SortedBrands(brands, nameLe)[j])
  {
    var sorted := SortedBrands(brands, nameLe);
    var n := Min(4, |brands|);
    SortedBrandsSpec(brands, nameLe, if brands == [] then Brand("", "", []) else brands[0]);
    assert sorted == sorted[..n] + sorted[n..];
    assert multiset(sorted) == multiset(sorted[..n]) + multiset(sorted[n..]);
  }
}
