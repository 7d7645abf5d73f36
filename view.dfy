/** The state of the Services component, the handlers and effects that change
    it, and the choice of what the component renders. */
module ServicesView {
  import opened ServiceCatalog
  import opened CategoryGrouping

  /** The category used when the query string names none. */
  const DefaultCategory := "All"

  /** The one message shown when the catalog request fails. */
  const FetchErrorMessage := "Failed to load services."

  /** `queryParams.get('category') || 'All'`: an absent or empty parameter
      falls back to the default category. */
  function SelectedCategory(query: Option<string>): (c: string)
    ensures c == DefaultCategory <==> query == None || query == Some("") || query == Some(DefaultCategory)
    ensures c != DefaultCategory ==> query == Some(c)
  {
    if query.Some? && query.value != "" then query.value else DefaultCategory
  }

  /** JavaScript truthiness of the `error` state: `null` and `""` are falsy. */
  predicate Truthy(e: Option<string>) {
    e.Some? && e.value != ""
  }

  /** The content area below the category slider. */
  datatype Body = Spinner | SectionList(sections: seq<Section>)

  /** What the component renders: the `TypeError` that the grouping throws on
      an inherited key (no error boundary catches it), only the error text, or
      the catalog page with the slider's props, the content area and the
      modal's props. */
  datatype Page =
    | RenderThrows(key: string)
    | ErrorText(text: string)
    | CatalogPage(
        sliderCategories: seq<string>,
        sliderActive: string,
        body: Body,
        modalOpen: bool,
        modalService: Option<ServiceRecord>,
        modalCategory: string)

  class ServicesComponent {
    var services: seq<ServiceRecord>
    var loading: bool
    var error: Option<string>
    var activeService: Option<ServiceRecord>
    var isModalOpen: bool
    var categories: seq<string>
    var activeCategory: string

    /** The relations between the fields that every handler keeps. */
    ghost predicate Valid()
      reads this
    {
      && categories == Categories(services)
      && (isModalOpen ==> activeService.Some?)
      && (loading ==> services == [] && error == None)
      && (error.Some? ==> error.value == FetchErrorMessage)
    }

    /** The initial `useState` values. */
    constructor ()
      ensures Valid()
      ensures services == [] && loading && error == None
      ensures activeService == None && !isModalOpen
      ensures categories == [] && activeCategory == DefaultCategory
    {
      services := [];
      loading := true;
      error := None;
      activeService := None;
      isModalOpen := false;
      categories := [];
      activeCategory := DefaultCategory;
    }

    /** The catalog request resolved with `data`. */
    method FetchSucceeded(data: seq<ServiceRecord>)
      requires Valid()
      modifies this
      ensures Valid()
      ensures services == data && categories == Categories(data) && !loading
      ensures error == old(error)
      ensures activeService == old(activeService) && isModalOpen == old(isModalOpen)
      ensures activeCategory == old(activeCategory)
    {
      services := data;
      categories := Categories(data);
      loading := false;
    }

    /** The catalog request threw. */
    method FetchFailed()
      requires Valid()
      modifies this
      ensures Valid()
      ensures error == Some(FetchErrorMessage) && !loading
      ensures services == old(services) && categories == old(categories)
      ensures activeService == old(activeService) && isModalOpen == old(isModalOpen)
      ensures activeCategory == old(activeCategory)
      ensures FirstInheritedKey(services).None? ==> forall query :: Render(query) == ErrorText(FetchErrorMessage)
      ensures old(loading) ==> forall query :: Render(query) == ErrorText(FetchErrorMessage)
    {
      error := Some(FetchErrorMessage);
      loading := false;
    }

    /** The effect that follows the `category` query parameter: a selection
        other than the default overrides the active category. */
    method SyncCategory(query: Option<string>)
      requires Valid()
      modifies this
      ensures Valid()
      ensures SelectedCategory(query) != DefaultCategory ==> activeCategory == SelectedCategory(query)
      ensures SelectedCategory(query) == DefaultCategory ==> activeCategory == old(activeCategory)
      ensures services == old(services) && loading == old(loading) && error == old(error)
      ensures activeService == old(activeService) && isModalOpen == old(isModalOpen)
      ensures categories == old(categories)
    {
      var selected := SelectedCategory(query);
      if selected != DefaultCategory {
        activeCategory := selected;
      }
    }

    /** A card was clicked: remember its record and open the modal. */
    method HandleCardClick(service: ServiceRecord)
      requires Valid()
      modifies this
      ensures Valid()
      ensures activeService == Some(service) && isModalOpen
      ensures services == old(services) && loading == old(loading) && error == old(error)
      ensures categories == old(categories) && activeCategory == old(activeCategory)
    {
      activeService := Some(service);
      isModalOpen := true;
    }

    /** The modal's close callback: the modal closes, the record stays. */
    method CloseModal()
      requires Valid()
      modifies this
      ensures Valid()
      ensures !isModalOpen
      ensures activeService == old(activeService)
      ensures services == old(services) && loading == old(loading) && error == old(error)
      ensures categories == old(categories) && activeCategory == old(activeCategory)
    {
      isModalOpen := false;
    }

    /** The slider selected `category` (the state part of `scrollToCategory`). */
    method ScrollToCategory(category: string)
      requires Valid()
      modifies this
      ensures Valid()
      ensures activeCategory == category
      ensures services == old(services) && loading == old(loading) && error == old(error)
      ensures activeService == old(activeService) && isModalOpen == old(isModalOpen)
      ensures categories == old(categories)
    {
      activeCategory := category;
    }

    /** The page for the current state, given the current query parameter.
        The grouping runs first, on every render, and throws on an inherited
        key; then a truthy error hides everything else; otherwise the slider
        and the modal are always there and the content area is a spinner
        while loading. */
    function Render(query: Option<string>): (p: Page)
      reads this
      ensures p.RenderThrows? <==> FirstInheritedKey(services).Some?
      ensures p.RenderThrows? ==> p.key == FirstInheritedKey(services).value
      ensures p.ErrorText? <==> FirstInheritedKey(services).None? && Truthy(error)
      ensures p.ErrorText? ==> p.text == error.value
      ensures p.CatalogPage? ==>
                && p.sliderCategories == categories && p.sliderActive == activeCategory
                && p.modalOpen == isModalOpen && p.modalService == activeService
                && p.modalCategory == SelectedCategory(query)
      ensures p.CatalogPage? ==> (p.body.Spinner? <==> loading)
      ensures p.CatalogPage? && !loading ==> p.body.sections == Sections(services)
    {
      match FirstInheritedKey(services)
      case Some(key) => RenderThrows(key)
      case None =>
        if Truthy(error) then ErrorText(error.value)
        else
          CatalogPage(
            categories, activeCategory,
            if loading then Spinner else SectionList(Sections(services)),
            isModalOpen, activeService, SelectedCategory(query))
    }
  }

  /** A worked run: two "Food" records and one "Drinks" record are fetched
      with the query naming "Drinks", the "Drinks" card is clicked and the
      modal closed again. */
  method ExampleRun() returns (page: Page, active: Option<ServiceRecord>)
    ensures page == CatalogPage(
              ["Food", "Drinks"], "Drinks",
              SectionList([Section("Food", [ServiceRecord(1, "Food", "", "", ""), ServiceRecord(2, "Food", "", "", "")]),
                           Section("Drinks", [ServiceRecord(3, "Drinks", "", "", "")])]),
              false, Some(ServiceRecord(3, "Drinks", "", "", "")), "Drinks")
    ensures active == Some(ServiceRecord(3, "Drinks", "", "", ""))
  {
    var food1 := ServiceRecord(1, "Food", "", "", "");
    var food2 := ServiceRecord(2, "Food", "", "", "");
    var drink := ServiceRecord(3, "Drinks", "", "", "");
    var data := [food1, food2, drink];
    var view := new ServicesComponent();
    var query := Some("Drinks");
    assert view.Render(query).body == Spinner;
    ExampleCategories(food1, food2, drink);
    ExampleSections(food1, food2, drink);
    ExampleNotInherited(food1, food2, drink);
    view.FetchSucceeded(data);
    view.SyncCategory(query);
    view.HandleCardClick(drink);
    view.CloseModal();
    page := view.Render(query);
    active := view.activeService;
  }
}
