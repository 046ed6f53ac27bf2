/**
 * The records every service shares: an inventory asset, its acquisition date,
 * the asset-type and status unions, the annual depreciation-rate table and the
 * audit alert vocabulary.
 */
module AssetModel {
  import opened Wrappers
  import opened Numbers
  import opened Text
  import opened Seqs

  /** A calendar date without time of day. */
  datatype Date = Date(year: nat, month: nat, day: nat)

  predicate WellFormedDate(d: Date) {
    d.year <= 9999 && 1 <= d.month <= 12 && 1 <= d.day <= 31
  }

  /** The `YYYY-MM-DD` text an asset stores as its date. */
  function Iso(d: Date): (s: string)
    ensures |s| == 10 && s[4] == '-' && s[7] == '-'
    ensures s[..4] == Digits(d.year, 4) && s[5..7] == Digits(d.month, 2) && s[8..] == Digits(d.day, 2)
  {
    Digits(d.year, 4) + "-" + Digits(d.month, 2) + "-" + Digits(d.day, 2)
  }

  /** Calendar order: by year, then month, then day. */
  predicate DateBefore(a: Date, b: Date) {
    a.year < b.year
    || (a.year == b.year && a.month < b.month)
    || (a.year == b.year && a.month == b.month && a.day < b.day)
  }

  /** For well-formed dates, comparing the `YYYY-MM-DD` texts as strings is comparing the dates. */
  lemma IsoOrder(a: Date, b: Date)
    requires WellFormedDate(a) && WellFormedDate(b)
    ensures LexLess(Iso(a), Iso(b)) <==> DateBefore(a, b)
    ensures Iso(a) == Iso(b) <==> a == b
  {
    var ya, ma, da := Digits(a.year, 4), Digits(a.month, 2), Digits(a.day, 2);
    var yb, mb, db := Digits(b.year, 4), Digits(b.month, 2), Digits(b.day, 2);
    assert Pow10(2) == 100 && Pow10(4) == 10000;
    DigitsOrder(a.year, b.year, 4);
    DigitsOrder(a.month, b.month, 2);
    DigitsOrder(a.day, b.day, 2);
    assert Iso(a) == ya + ("-" + ma + "-" + da);
    assert Iso(b) == yb + ("-" + mb + "-" + db);
    LexLessConcat(ya, "-" + ma + "-" + da, yb, "-" + mb + "-" + db);
    assert "-" + ma + "-" + da == "-" + (ma + ("-" + da));
    assert "-" + mb + "-" + db == "-" + (mb + ("-" + db));
    LexLessConcat("-", ma + ("-" + da), "-", mb + ("-" + db));
    LexLessIrreflexive("-");
    LexLessConcat(ma, "-" + da, mb, "-" + db);
    LexLessConcat("-", da, "-", db);
    IsoInjective(a, b);
  }

  /** Equal `YYYY-MM-DD` texts of well-formed dates are equal dates. */
  lemma IsoInjective(a: Date, b: Date)
    requires WellFormedDate(a) && WellFormedDate(b)
    ensures Iso(a) == Iso(b) <==> a == b
  {
    if Iso(a) == Iso(b) {
      assert Pow10(2) == 100 && Pow10(4) == 10000;
      assert Digits(a.year, 4) == Digits(b.year, 4) by {
        assert Iso(a)[..4] == Iso(b)[..4];
      }
      assert Digits(a.month, 2) == Digits(b.month, 2) by {
        assert Iso(a)[5..7] == Iso(b)[5..7];
      }
      assert Digits(a.day, 2) == Digits(b.day, 2) by {
        assert Iso(a)[8..] == Iso(b)[8..];
      }
      DigitsOrder(a.year, b.year, 4);
      DigitsOrder(a.month, b.month, 2);
      DigitsOrder(a.day, b.day, 2);
    }
  }

  /**
   * An inventory record. `assetType` (the `type` field) and `status` are kept as text: the services compare them
   * with strings outside their unions ('Asignado', 'Vehículos', 'Edificios').
   */
  datatype Asset = Asset(
    id: int,
    name: string,
    assetType: string,
    price: real,
    quantity: int,
    status: string,
    responsible: string,
    location: string,
    date: Date)

  /** `price * quantity`, the value the reports call original or total value. */
  function OriginalValue(a: Asset): real {
    a.price * (a.quantity as real)
  }

  /** `assets.reduce((sum, a) => sum + a.price * a.quantity, 0)`. */
  function TotalValue(assets: seq<Asset>): (t: real)
    ensures assets == [] ==> t == 0.0
    ensures |assets| == 1 ==> t == OriginalValue(assets[0])
  {
    assert |assets| == 1 ==> assets[..0] == [] && assets == [] + [assets[0]];
    assert |assets| == 1 ==> SumBy(assets, OriginalValue) == SumBy(assets[..0], OriginalValue) + OriginalValue(assets[0]);
    SumBy(assets, OriginalValue)
  }

  /** The inventory value of two lists together is the sum of their values. */
  lemma TotalValueConcat(xs: seq<Asset>, ys: seq<Asset>)
    ensures TotalValue(xs + ys) == TotalValue(xs) + TotalValue(ys)
  {
    SumByConcat(xs, ys, OriginalValue);
  }

  /** `a => a.status === status`. */
  function HasStatus(status: string): Asset -> bool {
    (a: Asset) => a.status == status
  }

  /** `assets.findIndex(a => a.id === id)`: the first position holding `id`, or -1. */
  function FindIndex(assets: seq<Asset>, id: int): (i: int)
    ensures -1 <= i < |assets|
    ensures i == -1 <==> forall j :: 0 <= j < |assets| ==> assets[j].id != id
    ensures i >= 0 ==> assets[i].id == id && forall j :: 0 <= j < i ==> assets[j].id != id
  {
    if assets == [] then -1
    else if assets[0].id == id then 0
    else
      var k := FindIndex(assets[1..], id);
      assert forall j :: 1 <= j < |assets| ==> assets[j] == assets[1..][j - 1];
      if k == -1 then -1 else k + 1
  }

  /** `assets.find(a => a.id === id)`: the first asset with that id, if any. */
  function FindById(assets: seq<Asset>, id: int): (r: Option<Asset>)
    ensures r.None? <==> forall a | a in assets :: a.id != id
    ensures r.Some? ==> r.value in assets && r.value.id == id
    ensures r.Some? ==> r.value == assets[FindIndex(assets, id)]
  {
    var i := FindIndex(assets, id);
    if i == -1 then None else Some(assets[i])
  }

  const ASSET_TYPES: seq<string> := [
    "Edificaciones",
    "Instalaciones, maquinaria, equipos y muebles",
    "Vehículos y equipo caminero",
    "Equipos de cómputo y software",
    "Barcazas y aeronaves",
    "Aviones de fumigación",
    "Otros aviones",
    "Equipo ferroviario",
    "Vehículos de carga",
    "Vehículos eléctricos ligeros",
    "Equipos de Laboratorio"
  ]

  const ASSET_STATUSES: seq<string> := ["Disponible", "No disponible", "En mantenimiento", "Dado de baja"]

  predicate IsAssetType(t: string) { t in ASSET_TYPES }

  predicate IsAssetStatus(s: string) { s in ASSET_STATUSES }

  /** Annual depreciation rate per asset type. */
  const DEPRECIATION_RATES: map<string, real> := map[
    "Edificaciones" := 0.05,
    "Instalaciones, maquinaria, equipos y muebles" := 0.10,
    "Vehículos y equipo caminero" := 0.20,
    "Equipos de cómputo y software" := 0.33,
    "Barcazas y aeronaves" := 0.05,
    "Aviones de fumigación" := 0.25,
    "Otros aviones" := 0.10,
    "Equipo ferroviario" := 0.06,
    "Vehículos de carga" := 0.25,
    "Vehículos eléctricos ligeros" := 0.25,
    "Equipos de Laboratorio" := 0.10
  ]

  /** The table has exactly one entry per asset type, and there are eleven distinct types. */
  lemma RatesCoverAssetTypes()
    ensures |ASSET_TYPES| == 11
    ensures forall i, j :: 0 <= i < j < |ASSET_TYPES| ==> ASSET_TYPES[i] != ASSET_TYPES[j]
    ensures DEPRECIATION_RATES.Keys == set t | t in ASSET_TYPES
  {
  }

  /** Every rate is a proper fraction. */
  lemma RatesAreFractions()
    ensures forall t :: t in DEPRECIATION_RATES ==> 0.0 < DEPRECIATION_RATES[t] < 1.0
  {
  }

  /** The four statuses, all different. */
  lemma StatusUnion()
    ensures |ASSET_STATUSES| == 4
    ensures forall i, j :: 0 <= i < j < |ASSET_STATUSES| ==> ASSET_STATUSES[i] != ASSET_STATUSES[j]
  {
  }

  /** Inventory summary of the audit report. */
  datatype ResumenGeneral = ResumenGeneral(
    totalActivos: nat,
    valorTotalInventario: real,
    activosAsignados: nat,
    activosDisponibles: nat,
    depreciacionEstimada: real)

  /**
   * Depreciation figures of one asset. The audit generators leave the years of use unset
   * (`None`); the asset store fills them in.
   */
  datatype Depreciation = Depreciation(
    anual: real,
    mensual: real,
    acumulada: real,
    valorActual: real,
    porcentaje: Num,
    anosUso: Option<int>)

  datatype AlertType = Depreciacion | Mantenimiento | Asignacion | Valor

  /** The union 'Alta' | 'Media' | 'Baja', used both for alert priority and for criticality. */
  datatype Level = Alta | Media | Baja

  type AlertPriority = Level

  type Criticality = Level

  /** The text of an alert, without its number formatting. */
  datatype AlertMessage = DepreciationReached(porcentaje: Num) | HighValueUnassigned

  datatype Alert = Alert(tipo: AlertType, prioridad: AlertPriority, mensaje: AlertMessage, activoId: Option<int>)
}
