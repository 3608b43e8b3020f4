/**
  The page's selection state and its input handlers: the script's globals
  `currentBrand`, `searchQuery`, `sortOrder` and `filteredModels`, the text
  of the results title and whether the search-clear button shows.
 */
module Store {
  import opened Wrappers
  import opened Text
  import opened Catalog
  import opened Pipeline

  const AllModelsTitle := "Все модели"

  /** `Результаты поиска: "<query>"`. */
  function SearchTitle(query: string): string {
    "Результаты поиска: \"" + query + "\""
  }

  /** A name that `.brand[data-name="<name>"]` can quote: one without a `"`,
      which would end the attribute string, and without a line break, which a
      CSS string may not hold. For any other name the selector is invalid and
      `querySelector` throws. */
  predicate QuotableName(name: string) {
    forall k :: 0 <= k < |name| ==> name[k] != '"' && name[k] != '\n' && name[k] != '\r' && name[k] != '\U{000C}'
  }

  /** A brand name with a quote, as a Russian page may well write one, is not quotable. */
  lemma QuotableNameExamples()
    ensures QuotableName("Nike") && QuotableName("Фабрика «Скороход»")
    ensures !QuotableName("Фабрика \"Скороход\"") && !QuotableName("New\nBalance")
  {
    assert "Фабрика \"Скороход\""[8] == '"';
    assert "New\nBalance"[3] == '\n';
  }

  /** The page after the catalog document has loaded. */
  class CatalogPage {
    /** `allData.brands`, in catalog order; the document is taken to have one. */
    const brands: seq<Brand>
    /** `localeCompare(x, y) <= 0`, which the script does not define. */
    const nameLe: (string, string) -> bool
    var currentBrand: Option<Brand>
    var searchQuery: string
    /** The sort select's value, whatever it is. */
    var sortOrder: string
    var filteredModels: seq<Model>
    var resultsTitle: string
    var clearVisible: bool

    /** The selected brand is one of the catalog's; the clear button shows
        exactly while there is a query; an empty catalog never shows a model. */
    ghost predicate Valid()
      reads this
    {
      && (currentBrand.Some? ==> currentBrand.value in brands)
      && clearVisible == (searchQuery != "")
      && (brands == [] ==> filteredModels == [])
    }

    /** The list the current state calls for. */
    function View(): seq<Model>
      reads this
    {
      if currentBrand.Some? then
        BrandView(currentBrand.value, searchQuery, ParseSortOrder(sortOrder), nameLe)
      else
        AllView(brands, searchQuery, ParseSortOrder(sortOrder), nameLe)
    }

    /** The results title the current state calls for. */
    function Title(): string
      reads this
    {
      if currentBrand.Some? then currentBrand.value.name
      else if searchQuery != "" then SearchTitle(searchQuery)
      else AllModelsTitle
    }

    /** What is displayed matches the state. */
    ghost predicate Shown()
      reads this
    {
      filteredModels == View() && resultsTitle == Title()
    }

    /** The state once `allData` is set; nothing is selected yet. */
    constructor (brands: seq<Brand>, nameLe: (string, string) -> bool, initialTitle: string)
      ensures Valid()
      ensures this.brands == brands && this.nameLe == nameLe
      ensures currentBrand == None && searchQuery == "" && sortOrder == "default"
      ensures filteredModels == [] && resultsTitle == initialTitle && !clearVisible
    {
      this.brands := brands;
      this.nameLe := nameLe;
      currentBrand := None;
      searchQuery := "";
      sortOrder := "default";
      filteredModels := [];
      resultsTitle := initialTitle;
      clearVisible := false;
    }

    lemma EmptyCatalogShowsNothing()
      requires brands == []
      ensures AllView(brands, searchQuery, ParseSortOrder(sortOrder), nameLe) == []
    {
      assert Flatten(brands) == [];
    }

    /** `showAllModels`. */
    method ShowAllModels()
      requires Valid() && currentBrand.None?
      modifies this`filteredModels, this`resultsTitle
      ensures Valid() && Shown()
      ensures filteredModels == AllView(brands, searchQuery, ParseSortOrder(sortOrder), nameLe)
    {
      var all := FlattenBrands(brands);
      var matching := SearchAcrossBrands(all, searchQuery);
      var sorted := SortModels(matching, ParseSortOrder(sortOrder), nameLe);
      resultsTitle := if searchQuery != "" then SearchTitle(searchQuery) else AllModelsTitle;
      filteredModels := sorted;
      if brands == [] {
        EmptyCatalogShowsNothing();
      }
    }

    /** `applyFilters`: the selected brand's view, or every brand's when none is selected. */
    method ApplyFilters()
      requires Valid()
      modifies this`filteredModels, this`resultsTitle
      ensures Valid() && filteredModels == View()
      ensures currentBrand.Some? ==> resultsTitle == old(resultsTitle)
      ensures currentBrand.None? ==> resultsTitle == Title()
    {
      if currentBrand.None? {
        ShowAllModels();
        return;
      }
      var models := SearchInBrand(currentBrand.value.models, searchQuery);
      models := SortModels(models, ParseSortOrder(sortOrder), nameLe);
      filteredModels := models;
    }

    /** `selectBrand`: select the brand, title the results with its name,
        re-filter. A name the highlight's selector cannot quote makes it throw
        right after the brand is selected, so nothing else changes, and the
        handler that called it stops there (no caller does anything after it
        that the model tracks). */
    method SelectBrand(brand: Brand)
      requires Valid() && brand in brands
      modifies this`currentBrand, this`filteredModels, this`resultsTitle
      ensures Valid() && currentBrand == Some(brand)
      ensures QuotableName(brand.name) ==> Shown() && resultsTitle == brand.name
      ensures QuotableName(brand.name) ==>
        filteredModels == BrandView(brand, searchQuery, ParseSortOrder(sortOrder), nameLe)
      ensures !QuotableName(brand.name) ==>
        filteredModels == old(filteredModels) && resultsTitle == old(resultsTitle)
    {
      currentBrand := Some(brand);
      if !QuotableName(brand.name) {
        return;
      }
      resultsTitle := brand.name;
      ApplyFilters();
    }

    /** `if (brands.length > 0) selectBrand(brands[0])`, which the load
        handler (after its timer), the clear button and the reset button run. */
    method SelectFirstBrand()
      requires Valid()
      modifies this`currentBrand, this`filteredModels, this`resultsTitle
      ensures Valid()
      ensures brands != [] ==> currentBrand == Some(brands[0])
      ensures brands != [] && QuotableName(brands[0].name) ==> Shown()
      ensures brands != [] && !QuotableName(brands[0].name) ==>
        filteredModels == old(filteredModels) && resultsTitle == old(resultsTitle)
      ensures brands == [] ==>
        currentBrand == old(currentBrand) && filteredModels == old(filteredModels) && resultsTitle == old(resultsTitle)
    {
      if |brands| > 0 {
        SelectBrand(brands[0]);
      }
    }

    /** The search input handler: the trimmed query; a non-empty one clears
        the brand and shows every brand's matches; an empty one re-filters the
        selected brand, or selects the first brand when none is selected. */
    method OnSearchInput(value: string)
      requires Valid()
      modifies this`searchQuery, this`clearVisible, this`currentBrand, this`filteredModels, this`resultsTitle
      ensures Valid()
      ensures searchQuery == Trim(value) && clearVisible == (Trim(value) != "")
      ensures currentBrand ==
        if Trim(value) != "" then None
        else if old(currentBrand).Some? then old(currentBrand)
        else if brands != [] then Some(brands[0])
        else None
      ensures Trim(value) != "" ==> Shown()
      ensures Trim(value) == "" && old(currentBrand).Some? ==> filteredModels == View()
      ensures Trim(value) == "" && old(currentBrand).None? && brands != [] && QuotableName(brands[0].name) ==> Shown()
      ensures Trim(value) == "" && old(currentBrand).None? && brands != [] && !QuotableName(brands[0].name) ==>
        filteredModels == old(filteredModels) && resultsTitle == old(resultsTitle)
      ensures Trim(value) == "" && old(currentBrand).Some? ==> resultsTitle == old(resultsTitle)
      ensures Trim(value) == "" && old(currentBrand).None? && brands == [] ==> resultsTitle == old(resultsTitle)
    {
      searchQuery := Trim(value);
      clearVisible := searchQuery != "";
      if searchQuery != "" {
        currentBrand := None;
        ShowAllModels();
      } else if currentBrand.Some? {
        ApplyFilters();
      } else {
        if |brands| > 0 {
          SelectBrand(brands[0]);
        }
        if brands == [] {
          EmptyCatalogShowsNothing();
        }
      }
    }

    /** The search-clear button: drop the query, select the first brand. */
    method OnSearchClear()
      requires Valid()
      modifies this`searchQuery, this`clearVisible, this`currentBrand, this`filteredModels, this`resultsTitle
      ensures Valid() && searchQuery == "" && !clearVisible && sortOrder == old(sortOrder)
      ensures brands != [] ==> currentBrand == Some(brands[0])
      ensures brands != [] && QuotableName(brands[0].name) ==>
        Shown() && filteredModels == BrandView(brands[0], "", ParseSortOrder(sortOrder), nameLe)
      ensures brands != [] && !QuotableName(brands[0].name) ==>
        filteredModels == old(filteredModels) && resultsTitle == old(resultsTitle)
      ensures brands == [] ==>
        currentBrand == old(currentBrand) && filteredModels == old(filteredModels) && resultsTitle == old(resultsTitle)
    {
      searchQuery := "";
      clearVisible := false;
      SelectFirstBrand();
    }

    /** The sort select's change handler: re-filter the current scope with the new order. */
    method OnSortChange(value: string)
      requires Valid()
      modifies this`sortOrder, this`filteredModels, this`resultsTitle
      ensures Valid() && sortOrder == value && filteredModels == View()
      ensures currentBrand.None? ==> Shown()
      ensures currentBrand.Some? ==> resultsTitle == old(resultsTitle)
      ensures old(Shown()) ==> Shown()
    {
      sortOrder := value;
      if currentBrand.Some? {
        ApplyFilters();
      } else {
        ShowAllModels();
      }
    }

    /** The reset button: no query, default order, first brand selected and
        shown with its models in catalog order. */
    method OnResetFilter()
      requires Valid()
      modifies this`searchQuery, this`clearVisible, this`sortOrder, this`currentBrand, this`filteredModels, this`resultsTitle
      ensures Valid() && searchQuery == "" && !clearVisible && sortOrder == "default"
      ensures brands != [] ==> currentBrand == Some(brands[0])
      ensures brands != [] && QuotableName(brands[0].name) ==> Shown() && filteredModels == brands[0].models
      ensures brands != [] && !QuotableName(brands[0].name) ==>
        filteredModels == old(filteredModels) && resultsTitle == old(resultsTitle)
      ensures brands == [] ==>
        currentBrand == old(currentBrand) && filteredModels == old(filteredModels) && resultsTitle == old(resultsTitle)
    {
      searchQuery := "";
      clearVisible := false;
      sortOrder := "default";
      SelectFirstBrand();
      if brands != [] && QuotableName(brands[0].name) {
        ViewsUnfiltered(brands[0], brands, nameLe);
      }
    }

    /** `selectBrandByName`: select the first brand whose lower-cased name equals
        the lower-cased argument; do nothing when there is none. */
    method SelectBrandByName(name: string)
      requires Valid()
      modifies this`currentBrand, this`filteredModels, this`resultsTitle
      ensures Valid()
      ensures FindBrand(brands, name).Some? ==> currentBrand == Some(brands[FindBrand(brands, name).value])
      ensures FindBrand(brands, name).Some? && QuotableName(brands[FindBrand(brands, name).value].name) ==> Shown()
      ensures FindBrand(brands, name).Some? && !QuotableName(brands[FindBrand(brands, name).value].name) ==>
        filteredModels == old(filteredModels) && resultsTitle == old(resultsTitle)
      ensures FindBrand(brands, name).None? ==>
        currentBrand == old(currentBrand) && filteredModels == old(filteredModels) && resultsTitle == old(resultsTitle)
    {
      match FindBrand(brands, name)
      case Some(i) => SelectBrand(brands[i]);
      case None =>
    }
  }
}
