/** The text values of a model card, of the detail modal and of a brand
    card's icon. */
module Display {
  import opened Wrappers
  import opened Text
  import opened Catalog

  /** `model.price` is truthy: present and not zero. */
  predicate HasPrice(m: Model) {
    m.price.Some? && m.price.value != 0
  }

  /** `model.price || 0`, the price the sort orders compare. */
  function EffectivePrice(m: Model): nat {
    if m.price.Some? then m.price.value else 0
  }

  const CardPriceFallback := "Узнать цену"
  const ModalPriceFallback := "Уточнить цену"
  const ApproxPrefix := "≈ $"
  const ExactPrefix := "$"

  /** What a price line tells a reader: whether the price is estimated, and the price. */
  datatype PriceInfo = PriceInfo(estimated: bool, price: nat)

  /** The prefix of a price line: "≈ $" for an estimated price, "$" otherwise. */
  function PricePrefix(estimated: bool): string {
    if estimated then ApproxPrefix else ExactPrefix
  }

  /** Reads a price line back: a prefix followed by a numeral as JavaScript
      prints it; `None` for any other text. */
  function ReadPriceLabel(line: string): Option<PriceInfo> {
    if |line| > 3 && line[..3] == ApproxPrefix && CanonicalDigits(line[3..]) then
      Some(PriceInfo(true, ParseDecimal(line[3..])))
    else if |line| > 1 && line[..1] == ExactPrefix && CanonicalDigits(line[1..]) then
      Some(PriceInfo(false, ParseDecimal(line[1..])))
    else None
  }

  /** A price's text reads back to its estimate flag and its value. */
  lemma PriceTextReadsBack(estimated: bool, p: nat)
    ensures ReadPriceLabel(PricePrefix(estimated) + NatToString(p)) == Some(PriceInfo(estimated, p))
  {
    var digits := NatToString(p);
    ParseNatToString(p);
    if estimated {
      var line := ApproxPrefix + digits;
      assert line[..3] == ApproxPrefix && line[3..] == digits;
    } else {
      var line := ExactPrefix + digits;
      assert line[..1] == ExactPrefix && line[1..] == digits;
      assert |line| > 3 ==> line[..3] != ApproxPrefix by {
        if |line| > 3 { assert line[..3][0] == '$'; }
      }
    }
  }

  /** Exactly one line reads back to a given flag and price: its prefix
      followed by the price's decimal text. */
  lemma ReadPriceLabelExact(line: string, info: PriceInfo)
    ensures ReadPriceLabel(line) == Some(info) <==> line == PricePrefix(info.estimated) + NatToString(info.price)
  {
    if ReadPriceLabel(line) == Some(info) {
      var k := if info.estimated then 3 else 1;
      assert line[..k] == PricePrefix(info.estimated);
      NatToStringParse(line[k..]);
      assert line == line[..k] + line[k..];
    } else {
      PriceTextReadsBack(info.estimated, info.price);
    }
  }

  /** The price line: `≈ $p` for an estimated price, `$p` for any other
      truthy price, and the fallback wording otherwise. A truthy price's line
      reads back to the estimate flag and the price. */
  function PriceLabel(m: Model, fallback: string): (r: string)
    ensures !HasPrice(m) ==> r == fallback
    ensures HasPrice(m) ==> ReadPriceLabel(r) == Some(PriceInfo(m.priceEstimated, m.price.value))
  {
    if HasPrice(m) then
      PriceTextReadsBack(m.priceEstimated, m.price.value);
      PricePrefix(m.priceEstimated) + NatToString(m.price.value)
    else fallback
  }

  /** Neither fallback wording reads as a price. */
  lemma FallbacksAreNotPrices()
    ensures ReadPriceLabel(CardPriceFallback) == None && ReadPriceLabel(ModalPriceFallback) == None
  {
    assert CardPriceFallback[..1] != ExactPrefix && ModalPriceFallback[..1] != ExactPrefix;
    assert CardPriceFallback[..3] != ApproxPrefix && ModalPriceFallback[..3] != ApproxPrefix;
  }

  /** The card's price line: it reads back to the estimate flag and the price
      exactly when the price is truthy, and reads as no price otherwise. */
  function CardPriceLabel(m: Model): (r: string)
    ensures ReadPriceLabel(r) == if HasPrice(m) then Some(PriceInfo(m.priceEstimated, m.price.value)) else None
    ensures !HasPrice(m) ==> r == CardPriceFallback
  {
    FallbacksAreNotPrices();
    PriceLabel(m, CardPriceFallback)
  }

  /** The modal's price line, with the same guarantee and its own fallback. */
  function ModalPriceLabel(m: Model): (r: string)
    ensures ReadPriceLabel(r) == if HasPrice(m) then Some(PriceInfo(m.priceEstimated, m.price.value)) else None
    ensures !HasPrice(m) ==> r == ModalPriceFallback
  {
    FallbacksAreNotPrices();
    PriceLabel(m, ModalPriceFallback)
  }

  /** The price line loses nothing: it shows the price and the estimate flag
      exactly when the price is truthy, and the fallback otherwise. */
  lemma PriceLabelRoundTrip(m: Model, fallback: string)
    requires ReadPriceLabel(fallback) == None
    ensures ReadPriceLabel(PriceLabel(m, fallback))
         == if HasPrice(m) then Some(PriceInfo(m.priceEstimated, m.price.value)) else None
  {
  }

  /** The card and the modal print the same price line exactly when the price
      is truthy; otherwise each prints its own fallback. */
  lemma CardModalPriceLabels(m: Model)
    ensures CardPriceLabel(m) == ModalPriceLabel(m) <==> HasPrice(m)
    ensures !HasPrice(m) ==> CardPriceLabel(m) == CardPriceFallback && ModalPriceLabel(m) == ModalPriceFallback
  {
    if !HasPrice(m) {
      assert CardPriceFallback[1] != ModalPriceFallback[1];
    }
  }

  /** `name.replace(/_/g, ' ')`. */
  function DisplayName(name: string): (r: string)
    ensures |r| == |name|
    ensures forall k :: 0 <= k < |r| ==> r[k] != '_'
    ensures forall k :: 0 <= k < |r| && name[k] != '_' ==> r[k] == name[k]
    ensures forall k :: 0 <= k < |r| && name[k] == '_' ==> r[k] == ' '
  {
    if name == [] then []
    else [if name[0] == '_' then ' ' else name[0]] + DisplayName(name[1..])
  }

  /** The replacement works character by character, so it distributes over concatenation. */
  lemma {:induction false} DisplayNameConcat(a: string, b: string)
    ensures DisplayName(a + b) == DisplayName(a) + DisplayName(b)
  {
    if a != [] {
      assert (a + b)[1..] == a[1..] + b;
      DisplayNameConcat(a[1..], b);
    }
  }

  /** A name of two underscore-free words joined by `_` shows the words
      separated by a space. */
  lemma DisplayNameTwoWords(a: string, b: string)
    requires '_' !in a && '_' !in b
    ensures DisplayName(a + "_" + b) == a + " " + b
  {
    DisplayNameConcat(a + "_", b);
    DisplayNameConcat(a, "_");
    assert DisplayName(a) == a;
    assert DisplayName(b) == b;
  }

  /** `name.substring(0, 2).toUpperCase()`: the icon text of a brand without an image. */
  function Initials(name: string): (r: string)
    ensures |r| == Min(2, |name|)
    ensures forall k :: 0 <= k < |r| ==> r[k] == UpperChar(name[k])
    ensures Upper(r) == r
  {
    var r := Upper(name[..Min(2, |name|)]);
    LowerUpperFold(name[..Min(2, |name|)]);
    r
  }

  /** A brand card's icon: the image when the brand has one, else its initials. */
  datatype Icon = IconImage(src: string) | IconText(text: string)

  function BrandIcon(b: Brand): (icon: Icon)
    ensures icon.IconImage? <==> b.icon != ""
    ensures icon.IconImage? ==> icon.src == b.icon
    ensures icon.IconText? ==> icon.text == Initials(b.name)
  {
    if b.icon != "" then IconImage(b.icon) else IconText(Initials(b.name))
  }

  const SizesPrefix := "Размеры: "

  /** The card's size line: `Размеры: ` and the sizes joined by `, `, or the
      empty string (line not shown) when there are no sizes. */
  function SizesText(sizes: seq<string>): (r: string)
    ensures r == "" <==> sizes == []
    ensures sizes != [] ==> |r| == |SizesPrefix| + TotalLength(sizes) + 2 * (|sizes| - 1)
    ensures sizes != [] ==> r[..|SizesPrefix|] == SizesPrefix
    ensures |sizes| == 1 ==> r == SizesPrefix + sizes[0]
    ensures sizes != [] ==> r[|SizesPrefix|..] == Join(sizes, ", ")
  {
    if |sizes| > 0 then SizesPrefix + Join(sizes, ", ") else ""
  }

  /** The text of a model card; `None` for a line the card leaves out. */
  datatype Card = Card(
    image: Option<string>,
    brandLabel: Option<string>,
    name: string,
    price: string,
    sizes: Option<string>,
    description: Option<string>)

  function NonEmpty(s: string): Option<string> {
    if s != "" then Some(s) else None
  }

  function CardView(m: Model): (card: Card)
    ensures card.image.None? <==> m.image == ""
    ensures card.brandLabel.Some? <==> m.brandName.Some? && m.brandName.value != ""
    ensures card.sizes.Some? <==> m.sizes != []
    ensures card.description.Some? <==> m.description != ""
    ensures card.image.Some? ==> card.image.value == m.image
    ensures card.brandLabel.Some? ==> card.brandLabel.value == m.brandName.value
    ensures card.sizes.Some? ==> card.sizes.value == SizesText(m.sizes)
    ensures card.description.Some? ==> card.description.value == m.description
    ensures card.price == CardPriceLabel(m) && card.name == DisplayName(m.name)
  {
    Card(
      NonEmpty(m.image),
      if m.brandName.Some? then NonEmpty(m.brandName.value) else None,
      DisplayName(m.name),
      CardPriceLabel(m),
      NonEmpty(SizesText(m.sizes)),
      NonEmpty(m.description))
  }

  const NoDescription := "Описание отсутствует"

  /** The text of the detail modal: the image or the placeholder, and one
      badge per size. */
  datatype ModalView = ModalView(
    title: string,
    price: string,
    description: string,
    image: Option<string>,
    sizeBadges: seq<string>)

  function OpenModal(m: Model): (v: ModalView)
    ensures v.image.None? <==> m.image == ""
    ensures v.image.Some? ==> v.image.value == m.image
    ensures v.description == if m.description != "" then m.description else NoDescription
    ensures v.sizeBadges == m.sizes && v.price == ModalPriceLabel(m) && v.title == DisplayName(m.name)
  {
    ModalView(DisplayName(m.name), ModalPriceLabel(m),
      if m.description != "" then m.description else NoDescription,
      NonEmpty(m.image), m.sizes)
  }

  /** The model grid, or the no-results panel for an empty list. */
  datatype Grid = NoResults | Cards(cards: seq<Card>)

  function RenderModels(models: seq<Model>): (g: Grid)
    ensures g.NoResults? <==> models == []
    ensures g.Cards? ==> |g.cards| == |models|
    ensures g.Cards? ==> forall k :: 0 <= k < |models| ==> g.cards[k] == CardView(models[k])
  {
    if models == [] then NoResults
    else Cards(seq(|models|, k requires 0 <= k < |models| => CardView(models[k])))
  }
}
