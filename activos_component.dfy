/**
 * The assets page: the list it shows (the store's records narrowed by a search term and an
 * asset type), the add/edit form with its validity rule, submitting and deleting through
 * the store, and the page's own copy of the rates in percent. Dialogs (`alert`, `confirm`)
 * become parameters or are left out; the store's change notification is modelled by
 * reloading the list after each change.
 */
module ActivosComponent {
  import opened Wrappers
  import opened Text
  import opened Seqs
  import opened AssetModel
  import opened RateDepreciation
  import opened AssetService

  const TITLE_ADD: string := "Añadir Activo"
  const TITLE_EDIT: string := "Editar Activo"

  /** The form the add dialog starts from, dated `today` (the UTC calendar date). */
  function EmptyForm(today: Date): (form: AssetPatch)
    ensures form.id.None? && form.name == Some("") && form.price == Some(0.0) && form.quantity == Some(1)
    ensures form.status == Some("Disponible") && form.date == Some(today)
    ensures form.assetType == Some("Equipos de cómputo y software")
    ensures form.responsible == Some("") && form.location == Some("")
    ensures !IsFormValid(form)
  {
    AssetPatch(None, Some(""), Some("Equipos de cómputo y software"), Some(0.0), Some(1),
      Some("Disponible"), Some(""), Some(""), Some(today))
  }

  /** `!!x` for an optional text field. */
  predicate FilledText(t: Option<string>) { t.Some? && t.value != "" }

  /** `isFormValid`: every field present and truthy (a price or quantity of 0 counts as missing). */
  predicate IsFormValid(form: AssetPatch): (valid: bool)
    ensures valid ==>
      form.name.Some? && form.assetType.Some? && form.price.Some? && form.quantity.Some?
      && form.status.Some? && form.responsible.Some? && form.location.Some? && form.date.Some?
    ensures form.price == Some(0.0) || form.quantity == Some(0) ==> !valid
    ensures form.name == Some("") || form.responsible == Some("") || form.location == Some("") ==> !valid
  {
    FilledText(form.name) && FilledText(form.assetType)
    && form.price.Some? && form.price.value != 0.0
    && form.quantity.Some? && form.quantity.value != 0
    && FilledText(form.status) && FilledText(form.responsible) && FilledText(form.location)
    && form.date.Some?
  }

  /** The edit dialog's form: every field of the asset, its id included. */
  function FormOf(a: Asset): (form: AssetPatch)
    ensures forall b :: Merge(b, form) == a
  {
    AssetPatch(Some(a.id), Some(a.name), Some(a.assetType), Some(a.price), Some(a.quantity),
      Some(a.status), Some(a.responsible), Some(a.location), Some(a.date))
  }

  /** An existing asset's edit form is valid exactly when its fields are truthy. */
  lemma EditFormValid(a: Asset)
    ensures IsFormValid(FormOf(a)) <==>
      a.name != "" && a.assetType != "" && a.price != 0.0 && a.quantity != 0
      && a.status != "" && a.responsible != "" && a.location != ""
  {
  }

  /** `assetForm as Omit<Asset, 'id'>` for a valid form. */
  function DraftFromForm(form: AssetPatch): (draft: AssetDraft)
    requires IsFormValid(form)
    ensures forall id :: Merge(WithId(draft, id), form) == WithId(draft, form.id.GetOr(id))
  {
    AssetDraft(form.name.value, form.assetType.value, form.price.value, form.quantity.value,
      form.status.value, form.responsible.value, form.location.value, form.date.value)
  }

  /** The page's list condition: the search term (when not empty) and the type (when not empty). */
  function ListMatches(searchTerm: string, selectedType: string): Asset -> bool {
    (a: Asset) => (searchTerm == "" || MatchesTerm(Lower(searchTerm))(a))
      && (selectedType == "" || a.assetType == selectedType)
  }

  /** Without a type the page lists what the store's `searchAssets` returns for the same term. */
  lemma ListIsSearch(assets: seq<Asset>, searchTerm: string)
    ensures Filter(assets, ListMatches(searchTerm, "")) == SearchAssets(assets, searchTerm)
  {
    if searchTerm == "" {
      FilterAll(assets, ListMatches(searchTerm, ""));
      SearchEmptyTerm(assets);
    } else {
      FilterSame(assets, ListMatches(searchTerm, ""), MatchesTerm(Lower(searchTerm)));
    }
  }

  /** The page's rate table, in percent. */
  const PERCENT_RATES: map<string, int> := map[
    "Edificaciones" := 5,
    "Instalaciones, maquinaria, equipos y muebles" := 10,
    "Vehículos y equipo caminero" := 20,
    "Equipos de cómputo y software" := 33,
    "Barcazas y aeronaves" := 5,
    "Aviones de fumigación" := 25,
    "Otros aviones" := 10,
    "Equipo ferroviario" := 6,
    "Vehículos de carga" := 25,
    "Vehículos eléctricos ligeros" := 25,
    "Equipos de Laboratorio" := 10
  ]

  /** The percent table has the model table's keys, each entry 100 × the model's rate. */
  lemma PercentRateOf(assetType: string)
    ensures assetType in PERCENT_RATES <==> assetType in DEPRECIATION_RATES
    ensures assetType in PERCENT_RATES ==>
      PERCENT_RATES[assetType] != 0 && PERCENT_RATES[assetType] as real == 100.0 * DEPRECIATION_RATES[assetType]
  {
    assert PERCENT_RATES.Keys == DEPRECIATION_RATES.Keys;
  }

  /** `depreciationRates[type] || 10`. */
  function GetDepreciationRate(assetType: string): (percent: int)
    ensures (percent as real) == 100.0 * RateFor(DEPRECIATION_RATES, assetType)
  {
    PercentRateOf(assetType);
    RatesAreFractions();
    if assetType in PERCENT_RATES && PERCENT_RATES[assetType] != 0 then PERCENT_RATES[assetType] else 10
  }

  /** What submitting the form did. */
  datatype SubmitOutcome = Incomplete | Updated | Added

  /** The page's state. */
  class ActivosPage {
    var assets: seq<Asset>
    var filteredAssets: seq<Asset>
    var showModal: bool
    var modalTitle: string
    var editingAsset: Option<Asset>
    var searchTerm: string
    var selectedType: string
    var assetForm: AssetPatch

    constructor(today: Date)
      ensures assets == [] && filteredAssets == [] && !showModal && modalTitle == TITLE_ADD
      ensures editingAsset == None && searchTerm == "" && selectedType == ""
      ensures assetForm == EmptyForm(today)
    {
      assets := [];
      filteredAssets := [];
      showModal := false;
      modalTitle := TITLE_ADD;
      editingAsset := None;
      searchTerm := "";
      selectedType := "";
      assetForm := EmptyForm(today);
    }

    /** The list shown is always the records meeting the current condition, in store order. */
    ghost predicate Listed()
      reads this
    {
      filteredAssets == Filter(assets, ListMatches(searchTerm, selectedType))
    }

    /** `applyFilters`: search first, then type, each only when set. */
    method ApplyFilters()
      modifies this
      ensures filteredAssets == Filter(assets, ListMatches(searchTerm, selectedType)) && Listed()
      ensures searchTerm == "" && selectedType == "" ==> filteredAssets == assets
      ensures assets == old(assets) && searchTerm == old(searchTerm) && selectedType == old(selectedType)
      ensures showModal == old(showModal) && modalTitle == old(modalTitle)
      ensures editingAsset == old(editingAsset) && assetForm == old(assetForm)
    {
      var all := (a: Asset) => true;
      var bySearch := ListMatches(searchTerm, "");
      var filtered := assets;
      FilterAll(assets, all);
      if searchTerm != "" {
        filtered := Filter(filtered, MatchesTerm(Lower(searchTerm)));
        FilterSame(assets, MatchesTerm(Lower(searchTerm)), bySearch);
      } else {
        FilterSame(assets, all, bySearch);
      }
      assert filtered == Filter(assets, bySearch);
      if selectedType != "" {
        filtered := Filter(filtered, HasType(selectedType));
        FilterCompose(assets, bySearch, HasType(selectedType), ListMatches(searchTerm, selectedType));
      } else {
        FilterSame(assets, bySearch, ListMatches(searchTerm, selectedType));
      }
      filteredAssets := filtered;
    }

    /** `loadAssets`: the store's current list, filtered. */
    method LoadAssets(store: AssetStore)
      modifies this
      ensures assets == store.assets && Listed()
      ensures searchTerm == old(searchTerm) && selectedType == old(selectedType)
      ensures showModal == old(showModal) && modalTitle == old(modalTitle)
      ensures editingAsset == old(editingAsset) && assetForm == old(assetForm)
    {
      assets := store.assets;
      ApplyFilters();
    }

    /** `onSearchChange` after the search box changed to `term`. */
    method OnSearchChange(term: string)
      modifies this
      ensures searchTerm == term && assets == old(assets) && selectedType == old(selectedType) && Listed()
      ensures showModal == old(showModal) && modalTitle == old(modalTitle)
      ensures editingAsset == old(editingAsset) && assetForm == old(assetForm)
    {
      searchTerm := term;
      ApplyFilters();
    }

    /** `onTypeFilterChange` after the type selector changed to `t`. */
    method OnTypeFilterChange(t: string)
      modifies this
      ensures selectedType == t && assets == old(assets) && searchTerm == old(searchTerm) && Listed()
      ensures showModal == old(showModal) && modalTitle == old(modalTitle)
      ensures editingAsset == old(editingAsset) && assetForm == old(assetForm)
    {
      selectedType := t;
      ApplyFilters();
    }

    /** `openAddModal`. */
    method OpenAddModal(today: Date)
      modifies this
      ensures editingAsset == None && modalTitle == TITLE_ADD && assetForm == EmptyForm(today) && showModal
      ensures assets == old(assets) && filteredAssets == old(filteredAssets)
      ensures searchTerm == old(searchTerm) && selectedType == old(selectedType)
    {
      editingAsset := None;
      modalTitle := TITLE_ADD;
      assetForm := EmptyForm(today);
      showModal := true;
    }

    /** `openEditModal`: the form starts as a copy of the asset. */
    method OpenEditModal(asset: Asset)
      modifies this
      ensures editingAsset == Some(asset) && modalTitle == TITLE_EDIT && assetForm == FormOf(asset) && showModal
      ensures assets == old(assets) && filteredAssets == old(filteredAssets)
      ensures searchTerm == old(searchTerm) && selectedType == old(selectedType)
    {
      editingAsset := Some(asset);
      modalTitle := TITLE_EDIT;
      assetForm := FormOf(asset);
      showModal := true;
    }

    /** `closeModal`. */
    method CloseModal(today: Date)
      modifies this
      ensures !showModal && editingAsset == None && assetForm == EmptyForm(today)
      ensures assets == old(assets) && filteredAssets == old(filteredAssets) && modalTitle == old(modalTitle)
      ensures searchTerm == old(searchTerm) && selectedType == old(selectedType)
    {
      showModal := false;
      editingAsset := None;
      assetForm := EmptyForm(today);
    }

    /**
     * `onSubmit`: an invalid form changes nothing; otherwise the edited record is updated
     * (or the form added as a new record), the dialog closes and the list is reloaded.
     */
    method OnSubmit(store: AssetStore, today: Date) returns (outcome: SubmitOutcome)
      modifies this, store
      ensures !IsFormValid(old(assetForm)) ==>
        outcome == Incomplete && store.assets == old(store.assets) && assetForm == old(assetForm)
        && showModal == old(showModal) && editingAsset == old(editingAsset)
        && assets == old(assets) && filteredAssets == old(filteredAssets) && modalTitle == old(modalTitle)
      ensures IsFormValid(old(assetForm)) && old(editingAsset).Some? ==>
        outcome == Updated
        && (var id := old(editingAsset).value.id;
            var i := FindIndex(old(store.assets), id);
            if i == -1 then store.assets == old(store.assets)
            else store.assets == old(store.assets)[i := Merge(old(store.assets)[i], old(assetForm))])
      ensures IsFormValid(old(assetForm)) && old(editingAsset).None? ==>
        outcome == Added
        && store.assets == old(store.assets) + [WithId(DraftFromForm(old(assetForm)), NextId(old(store.assets)))]
      ensures IsFormValid(old(assetForm)) ==>
        !showModal && editingAsset == None && assetForm == EmptyForm(today)
        && assets == store.assets && Listed()
      ensures searchTerm == old(searchTerm) && selectedType == old(selectedType) && modalTitle == old(modalTitle)
    {
      if !IsFormValid(assetForm) {
        return Incomplete;
      }
      if editingAsset.Some? {
        var _ := store.UpdateAsset(editingAsset.value.id, assetForm);
        outcome := Updated;
      } else {
        var _ := store.AddAsset(DraftFromForm(assetForm));
        outcome := Added;
      }
      CloseModal(today);
      LoadAssets(store);
    }

    /** `deleteAsset`: only once the user confirmed; then the list is reloaded. */
    method DeleteAsset(store: AssetStore, id: int, confirmed: bool)
      modifies this, store
      ensures !confirmed ==>
        store.assets == old(store.assets) && assets == old(assets) && filteredAssets == old(filteredAssets)
      ensures searchTerm == old(searchTerm) && selectedType == old(selectedType)
      ensures showModal == old(showModal) && modalTitle == old(modalTitle)
      ensures editingAsset == old(editingAsset) && assetForm == old(assetForm)
      ensures confirmed ==>
        store.assets == Filter(old(store.assets), HasOtherId(id)) && assets == store.assets && Listed()
      ensures confirmed ==> forall a | a in filteredAssets :: a.id != id
    {
      if confirmed {
        var _ := store.DeleteAsset(id);
        LoadAssets(store);
      }
    }
  }
}
