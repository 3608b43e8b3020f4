# Sneaker catalog page — a Dafny model

This project models the client script `site/app.js` of a one-page sneaker
catalog. The script loads a catalog document of brands, each brand with its
models. It renders two statistics, an alphabetical brand list and a four-brand
footer. Then it keeps a selection state: the selected brand, a search query and
a sort order. From that state it computes the model list it shows:

- with a brand selected, that brand's models matching the query in name or description;
- with none selected, every brand's models tagged with their brand's name,
  matching in name, description or brand name;
- in either case sorted by price or by name, or left in catalog order.

Around that core sit the card and modal text of a model, the Russian numeral
agreement of the results counter, the hero slider, the FAQ accordion, the
reviews switcher and the contact form's checks.

Modules, in dependency order:

- `Wrappers`: `Option` and `Result`.
- `Text`: the string built-ins the script relies on, namely `trim`,
  `toLowerCase`/`toUpperCase`, `includes`, `join` and the decimal text of a number.
- `Sequences`: `filter`, subsequences and `find`.
- `StableSort`: a stable insertion sort by a total preorder. It stands for
  `Array.prototype.sort`, which ECMAScript 2019 and later require to be stable.
- `Catalog`: models and brands, the all-brands list, the totals, the brand
  order, the footer and the lookup by name.
- `Plural`: `getModelWord` and the two counters.
- `Display`: price, name, initials and size text; the model card, the detail
  modal and the grid.
- `Pipeline`: the search and the five sort orders of `applyFilters` and `showAllModels`.
- `Store`: class `CatalogPage`, holding the script's selection globals, with
  one method per event handler.
- `Widgets`: classes `HeroSlider`, `Accordion` and `ReviewSwitcher`, each
  over arrays of "active" flags.
- `ContactForm`: the submit handler's validation.

Entities are modelled as follows:

- A model's price is `Option<nat>`. "Truthy" means present and non-zero. The
  sort key `price || 0` is `EffectivePrice`.
- Absent descriptions, images and icons are `""`. Absent lists are `[]`. The
  script only ever reads them as `x || default`.
- `localeCompare` is not modelled as a fixed collation. The store and the
  sort lemmas take it as a parameter `nameLe`: a total preorder on strings
  that stands for `localeCompare(x, y) <= 0`.

The results counter agrees its word with its numeral through `getModelWord`
(`site/app.js:203`). Each brand card does not: it prints its count as
`${n} моделей` (`site/app.js:71`) for every `n`, and the model does the same.
`Plural.BrandCountAgreementIff` proves that the two counters agree exactly
when the agreed form is "моделей", so one model reads "1 моделей".

A consequence of the code as written, also modelled: with an empty catalog
and no brand selected, clearing the query re-selects nothing. The results
title then keeps its previous text, as the `OnSearchInput` contract states.

`selectBrand` highlights the brand card through the selector
`.brand[data-name="<name>"]` (`site/app.js:106`) after it has set
`currentBrand` and before it sets the title. A name with a `"` or a line break,
such as `Фабрика "Скороход"`, makes that selector invalid, and
`querySelector` throws. The model follows the code: for such a name
(`Store.QuotableName` fails) the brand is selected, but the title and the list
keep their previous values. Every handler that selects a brand states both
outcomes.

## Model

| member | source | states |
|---|---|---|
| Text.Trim | site/app.js:516-519 | the result is a contiguous slice of the input, no longer than it, that neither starts nor ends with white space |
| Text.TrimEmptyIff | site/app.js:523 | a value trims to empty exactly when it is all white space, so `!value.trim()` rejects blank input |
| Text.Lower | site/app.js:128 | lower-casing keeps the length and maps every character by the character mapping |
| Text.Upper | site/app.js:62 | upper-casing keeps the length and maps every character by the character mapping |
| Text.LowerUpperFold | site/app.js:42 | lower-casing is idempotent and absorbs a prior upper-casing, so comparisons of lower-cased names ignore letter case |
| Text.Contains | site/app.js:128-129 | `includes` holds exactly when the pattern occurs at some index of the text |
| Text.ContainsEmpty | site/app.js:125-131 | the empty string occurs in every text |
| Text.Join | site/app.js:267 | joining gives the single part unchanged and otherwise has the parts' total length plus one separator between each pair |
| Text.JoinConcat | site/app.js:267 | joining two non-empty lists placed end to end gives the first's join, the separator, then the second's join, so the parts appear in order |
| Text.NatToString | site/app.js:261 | a number's decimal text is non-empty, all digits and has no leading zero |
| Text.ParseNatToString | site/app.js:261 | reading a number's decimal text back gives the number |
| Text.NatToStringParse | site/app.js:261 | every canonical digit string is the decimal text of the number it denotes |
| Sequences.Filter | site/app.js:127-130 | the filtered list is no longer than the input and every element it keeps satisfies the predicate |
| Sequences.FilterIsSubsequence | site/app.js:127-130 | filtering keeps the input's order: the result is a subsequence of the input |
| Sequences.FilterExact | site/app.js:127-130 | a value occurs in the filtered list as often as in the input if it satisfies the predicate, and not at all otherwise |
| Sequences.FilterConcat | site/app.js:169-173 | filtering distributes over concatenation |
| Sequences.FindFirst | site/app.js:641 | `find` returns the first index whose element satisfies the predicate, and none exactly when no element does |
| StableSort.SortBy | site/app.js:134-146 | sorting yields a permutation of the input |
| StableSort.SortBySorted | site/app.js:134-146 | under a total preorder, the sorted list is ordered for every pair of positions |
| StableSort.SortByStable | site/app.js:134-146 | elements equivalent to any given key leave the sort in their input order |
| Catalog.FlattenBrands | site/app.js:160-165 | the nested push loops build exactly the all-brands list: every brand's models, brand after brand, each tagged with its brand's name |
| Catalog.TotalModels | site/app.js:29 | the `totalModels` statistic is zero exactly when no brand has a model, and is at least every single brand's model count |
| Catalog.FlattenLength | site/app.js:29 | the all-brands list has as many models as the `totalModels` statistic counts |
| Catalog.FlattenConcat | site/app.js:160-165 | the all-brands list of two brand lists placed end to end is their two all-brands lists placed end to end |
| Catalog.FlattenAt | site/app.js:160-165 | model j of brand i sits at position "models of the earlier brands + j" of the all-brands list, tagged with brand i's name |
| Catalog.FindBrand | site/app.js:641 | the lookup returns the first brand whose lower-cased name equals the lower-cased argument, and none when no brand's does |
| Catalog.BrandOrderPreorder | site/app.js:41-43 | comparing lower-cased names by a total preorder orders brands by a total preorder |
| Catalog.SortedBrands | site/app.js:41-43 | the brand list has as many brands as the catalog and the same brands, each as often |
| Catalog.SortedBrandsSpec | site/app.js:41-43 | the brand list is a permutation of the catalog's brands, alphabetical, with brands of equal lower-cased names in catalog order |
| Catalog.FooterBrands | site/app.js:85 | the footer holds min(4, n) brands, each drawn from the catalog no more often than it occurs there |
| Catalog.FooterBrandsSpec | site/app.js:85 | the footer is the first min(4, n) brands of the brand list, in alphabetical order, drawn from the catalog, each sorting no later than every brand left out |
| Plural.GetModelWord | site/app.js:288-299 | the word is one of the three forms of "модель" |
| Plural.GetModelWordIsCldr | site/app.js:288-299 | the word is the form of the count's category under the Russian plural rule of the Unicode CLDR |
| Plural.GetModelWordExamples | site/app.js:288-299 | 1, 21 and 31 take "модель"; 2, 3, 4, 22 and 33 take "модели"; 0, 5, 11, 12, 13, 14, 25 and 100 take "моделей" |
| Plural.GetModelWordLastTwoDigits | site/app.js:289-290 | the form depends only on the count's last two digits and repeats every 100 |
| Plural.ResultsCountText | site/app.js:203 | the results counter is the count's decimal text, a space and the form of the count's CLDR category |
| Plural.BrandCountText | site/app.js:71 | the brand-card counter is the results counter's numeral and space followed by "моделей" for every count, so it equals the results counter exactly when the count's category is "many" |
| Plural.BrandCountAgreementIff | site/app.js:71 | the brand-card counter equals the results counter exactly when the agreed form is "моделей"; for one model they differ |
| Display.PriceLabel | site/app.js:260-262 | with no truthy price the line is the fallback; otherwise it reads back to the model's estimate flag and price, which by `ReadPriceLabelExact` makes it exactly "≈ $p" for an estimated price and "$p" for any other |
| Display.ReadPriceLabelExact | site/app.js:260-262 | a line reads back to a flag and a price exactly when it is "≈ $" or "$" followed by that price's decimal text, with no leading zero |
| Display.PriceTextReadsBack | site/app.js:261 | "≈ $" or "$" followed by a price's decimal text reads back to that flag and price |
| Display.FallbacksAreNotPrices | site/app.js:262 | neither fallback, "Узнать цену" nor "Уточнить цену", reads as a price line |
| Display.PriceLabelRoundTrip | site/app.js:260-262 | the price line can be read back to the estimate flag and the price exactly when the price is truthy, and to nothing otherwise |
| Display.CardPriceLabel | site/app.js:260-262 | the card's price line reads back to the estimate flag and the price exactly when the price is truthy, so it is "≈ $p" or "$p", and is "Узнать цену" otherwise |
| Display.ModalPriceLabel | site/app.js:306-308 | the modal's price line reads back to the estimate flag and the price exactly when the price is truthy, so it is "≈ $p" or "$p", and is "Уточнить цену" otherwise |
| Display.CardModalPriceLabels | site/app.js:260-262 | the card and the modal show the same price line exactly when the price is truthy, and each shows its own fallback otherwise |
| Display.DisplayName | site/app.js:256 | the shown name has the name's length, keeps every character but `_` and shows a space for each `_` |
| Display.DisplayNameConcat | site/app.js:256 | replacing every `_` works character by character, so it distributes over concatenation |
| Display.DisplayNameTwoWords | site/app.js:256 | two underscore-free words joined by `_` show separated by a space, so "Air_Max" shows as "Air Max" |
| Display.Initials | site/app.js:62 | the icon text is the first two characters of the name (fewer for a shorter name), upper-cased, and stays fixed under upper-casing |
| Display.BrandIcon | site/app.js:53-63 | a brand shows its own icon image exactly when it has one, and its initials otherwise |
| Display.SizesText | site/app.js:266-267 | the size line is empty exactly when there are no sizes; otherwise it is "Размеры: " followed by the sizes joined by ", " |
| Display.CardView | site/app.js:224-276 | the card shows the model's image, brand name, size line and description, each exactly when the model has a non-empty one, with the card price line and the shown name |
| Display.OpenModal | site/app.js:305-333 | the modal shows the shown name, the modal price line, the description or "Описание отсутствует", the model's image exactly when it has one, and one badge per size, in order |
| Display.RenderModels | site/app.js:203-285 | an empty list shows the no-results panel; otherwise the grid has one card per model, in list order |
| Pipeline.ParseSortOrder | site/app.js:134-150 | each of the four recognised select values picks its order, and no other value does |
| Pipeline.SearchInBrand | site/app.js:126-131 | the single-brand search result is a subsequence of the brand's models, no longer, whose every model matches the query |
| Pipeline.SearchInBrandExact | site/app.js:126-131 | the single-brand search keeps the input's order and keeps exactly the models whose name or description contains the query, ignoring case |
| Pipeline.SearchAcrossBrands | site/app.js:168-174 | the all-brands search result is a subsequence of its input, no longer, whose every model matches the query |
| Pipeline.SearchAcrossBrandsSplit | site/app.js:160-174 | searching every brand's models of a catalog made of two parts gives the two parts' searches one after the other, so each brand's matches stay together in catalog order |
| Pipeline.SearchAcrossBrandsExact | site/app.js:168-174 | the all-brands search keeps the input's order and keeps exactly the models whose name, description or brand name contains the query, ignoring case |
| Pipeline.EmptyQueryMatchesAll | site/app.js:126 | skipping the filter for an empty query agrees with filtering, since every model matches the empty query |
| Pipeline.OrderLePreorder | site/app.js:134-146 | every comparator of the switch is a total preorder on models |
| Pipeline.SortModels | site/app.js:134-150 | sorting permutes the models; the default order leaves them untouched |
| Pipeline.PriceAscSpec | site/app.js:135-137 | 'price-asc' gives non-decreasing effective prices, with models of equal effective price in their prior order |
| Pipeline.PriceDescSpec | site/app.js:138-140 | 'price-desc' gives non-increasing effective prices, with models of equal effective price in their prior order |
| Pipeline.NameAscSpec | site/app.js:141-143 | 'name-asc' orders the lower-cased names by the collation and keeps models of equal names in their prior order |
| Pipeline.NameDescSpec | site/app.js:144-146 | 'name-desc' orders the lower-cased names by the reversed collation and keeps models of equal names in their prior order |
| Pipeline.BrandView | site/app.js:117-154 | a brand's view holds each matching model of the brand as often as the brand does, and no other model |
| Pipeline.AllView | site/app.js:157-195 | the all-brands view holds each matching model of the all-brands list as often as that list does, and no other model |
| Pipeline.ViewsUnfiltered | site/app.js:117-195 | with no query and the default order, a brand shows its own models unchanged and the all-brands view shows the whole catalog, `totalModels` long |
| Pipeline.NikeByPriceScenario | site/app.js:135-137 | a brand with Air_Max at 120 and Zoom at an estimated 90, sorted by ascending price, shows Zoom first |
| Pipeline.NikeCardScenario | site/app.js:260-262 | the same example's cards read "≈ $90" for Zoom and "$120" for Air_Max |
| Pipeline.AirSearchScenario | site/app.js:157-175 | the query "air" over Nike (Air_Max) and Puma (Suede) with no brand selected finds exactly Air_Max tagged with "Nike" |
| Store.CatalogPage.constructor | site/app.js:2-6 | the page starts with no brand, no query, the default order, an empty list and the clear button hidden |
| Store.CatalogPage.ShowAllModels | site/app.js:157-195 | the list becomes the all-brands view of the current query and order, and the title becomes the search title or "Все модели" |
| Store.CatalogPage.ApplyFilters | site/app.js:117-154 | the list becomes the view of the current state: the selected brand's, or every brand's when none is selected |
| Store.CatalogPage.SelectBrand | site/app.js:101-114 | the brand becomes selected. For a name the highlight selector can quote, the title becomes the name and the list becomes the brand's view. For any other name, the selector throws and the title and the list stay as they were |
| Store.QuotableNameExamples | site/app.js:106 | "Nike" and a name with «guillemets» can be quoted in the selector; a name with `"` or a line break cannot |
| Store.CatalogPage.SelectFirstBrand | site/app.js:733-735 | the catalog's first brand is selected, and shown if its name can be quoted (otherwise the title and the list stay); an empty catalog changes nothing |
| Store.CatalogPage.OnSearchInput | site/app.js:741-757 | the query becomes the trimmed input. A non-empty query clears the brand and shows every brand's matches. An empty one re-filters the selected brand, or else selects the first brand and shows it if its name can be quoted; otherwise the title and the list stay |
| Store.CatalogPage.OnSearchClear | site/app.js:759-766 | the query is dropped, the clear button hides, the order is kept and the first brand is selected, and shown if its name can be quoted; otherwise, and with an empty catalog, the brand, the list and the title stay as they were |
| Store.CatalogPage.OnSortChange | site/app.js:769-776 | the order becomes the select's value and the current scope is re-filtered; what was shown stays consistent with the state |
| Store.CatalogPage.OnResetFilter | site/app.js:779-789 | no query and the default order. The first brand is selected and, if its name can be quoted, shown with its models in catalog order; otherwise, and with an empty catalog, the brand, the list and the title stay as they were |
| Store.CatalogPage.SelectBrandByName | site/app.js:638-653 | the first brand whose lower-cased name matches is selected, and shown if its name can be quoted; with no match nothing changes |
| Widgets.ClearAll | site/app.js:391-392 | every flag is cleared |
| Widgets.MarkOnly | site/app.js:349-355 | the flag at the index is set and every other flag is cleared |
| Widgets.OnlyActiveCount | site/app.js:346-356 | when one index alone is active, exactly one item is active if the index is in range, and none otherwise |
| Widgets.HeroSlider.constructor | site/app.js:341-344 | the slider holds the page's slide and dot flags, starts at slide 0 (`site/app.js:7`) and exists only when there is a slide |
| Widgets.HeroSlider.ShowSlide | site/app.js:346-356 | the slide and the dot at the index become the only active ones, and the index becomes current |
| Widgets.HeroSlider.NextSlide | site/app.js:358-361 | the current slide advances by one modulo the number of slides; its slide and its dot are the only active ones, and exactly one slide is active |
| Widgets.HeroSlider.OnDotClick | site/app.js:364-369 | the clicked dot and its slide become the only active ones; a dot past the last slide leaves no slide active |
| Widgets.Accordion.constructor | site/app.js:438-442 | the accordion holds the flags of the modal's FAQ items, whatever they are |
| Widgets.Accordion.Toggle | site/app.js:456-466 | every item closes, and the clicked one opens if it was closed, so at most one item is open |
| Widgets.ReviewSwitcher.constructor | site/app.js:382-385 | the switcher holds the avatar and panel flags, each avatar's `data-review` and each panel's id, and exists only when there is an avatar and a panel |
| Widgets.ReviewSwitcher.TargetOf | site/app.js:389-397 | an avatar's target is the first review panel whose id is its `data-review`; there is none when the value is not a CSS identifier, because the selector then throws, or when no panel has that id |
| Widgets.SelectorExamples | site/app.js:397 | "", "1", "-1" and "a.b" are not CSS identifiers; "review1", "-x", "--x" and "отзыв" are |
| Widgets.ReviewSwitcher.OnAvatarClick | site/app.js:388-400 | the clicked avatar is the only active one; its target panel, if any, is the only active panel, and otherwise none is |
| ContactForm.IsValidEmail | site/app.js:529-530 | the email check accepts exactly the strings of the form `[^\s@]+@[^\s@]+\.[^\s@]+` |
| ContactForm.EmailPartsValidIff | site/app.js:529-530 | once the first `@` is found, checking the parts around it decides the pattern, in both directions |
| ContactForm.EmailExamplesAccepted | site/app.js:529-530 | "a@b.c" passes the email check, and so does "a@..c": the domain's first part may itself be a dot |
| ContactForm.EmailExamplesMissingPart | site/app.js:529-530 | "a@b", "@b.c", "a@.c" and "a@b." fail the email check |
| ContactForm.EmailExamplesBadCharacter | site/app.js:529-530 | "a b@c.d" and "a@b@c.d" fail: no white space and a single `@` |
| ContactForm.SubmitError | site/app.js:522-532 | the handler shows the required-fields message exactly when a required field is blank, the email message exactly when they are all filled and the email does not match, and no error exactly when the form is sent |
| ContactForm.ValidateForm | site/app.js:515-533 | all fields are trimmed. A blank name, phone or email gives the required-fields error. Otherwise a non-matching email gives the email error. Otherwise the trimmed data is accepted, and its email matches the pattern |

## Left out

- Loading the catalog with `fetch`, and the error page shown when loading fails.
  The store is built from an already loaded catalog, so the `allData == null`
  guards of `showAllModels` and `selectBrandByName` are not modelled.
- A catalog document without a `brands` array. The load handler reads it as
  `[]` (`site/app.js:727`), but `showAllModels` (`site/app.js:161`) and
  `selectBrandByName` (`site/app.js:641`) read `allData.brands` directly and
  would throw. The store takes the brand list to be present.
- The DOM: element creation, styles, animations, the `active` highlight of the
  selected brand card, alt texts and the emoji placeholder. The model keeps
  only the text and the flags that these represent.
- Timers: the 100 ms delay before the first brand is selected on load (the
  model runs the selection directly), the slider's 5 s auto-advance and its
  reset on a dot click, the 50 ms delay before the FAQ accordion is set up,
  and the delayed scroll after `selectBrandByName`.
- Unicode case mapping beyond ASCII and Cyrillic U+0400–U+045F. Also the
  UTF-16 code-unit view of strings: the model works on code points.
- `localeCompare`'s actual collation. It is a parameter; the properties hold
  for any total preorder.
- Fractional prices: prices are natural numbers.
- Text.NatToString: JavaScript prints a number of 10^21 or more in exponent form, and a JSON price above 2^53 is not read exactly. The price text is faithful only for whole prices below 2^53; larger ones are not modelled.
- The contact form's POST request, its loading state, the messages shown
  after sending and the reset after sending; only the validation before
  sending and its two error messages are modelled.
- The mobile menu, the video player, the opening and closing of the FAQ modal
  and of the detail modal, the Escape key, and the scroll locking.
- `initFAQ` (`site/app.js:481-499`) uses the same toggle as `initFAQAccordion`,
  each over its own item list: every `.faq-item` in the document
  (`site/app.js:482`) versus those in `#faqModal` (`site/app.js:438`). Both are
  `Widgets.Accordion.Toggle` over the list it is given. FAQ items without a question are
  not modelled: `initFAQAccordion` skips them, while `initFAQ` would fail
  on them.
- Widgets.ReviewSwitcher.OnAvatarClick: `#id` looks the id up in the whole
  document. The model looks only among the review panels, so a target id that
  names some other element is treated as no target.
- Widgets.ReviewSwitcher.TargetOf: only unescaped CSS identifiers are modelled
  as ids. A value that is no identifier but still forms a selector after `#`
  (`a.b`, `a b`, a backslash escape) is treated as no target, while the page
  would match it as a compound selector. An avatar without `data-review`
  (read as "undefined") is not modelled: every avatar has a string target.
- Store.CatalogPage.SelectBrand: the model requires a catalog brand. The script
  only ever passes one, from the brand list, the footer or a lookup.
