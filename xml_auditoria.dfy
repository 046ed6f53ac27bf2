/**
 * The numeric rules behind the Angular audit generator: the month count between two
 * calendar dates, the per-asset depreciation, the alerts, the physical state, the
 * inventory summary, the start of the audited period and the patrimonial code.
 * The reference date ("today") is a parameter.
 */
module XmlAuditoria {
  import opened Wrappers
  import opened Numbers
  import opened Text
  import opened Seqs
  import opened AssetModel
  import opened MonthDepreciation

  /** Months since year 0, counting January of year 0 as month 0. */
  function MonthIndex(d: Date): int {
    d.year * 12 + d.month - 1
  }

  /** Elapsed months from the year and month fields alone; the day of the month is ignored. */
  function MesesEntreFechas(inicio: Date, fin: Date): (meses: int)
    ensures meses == MonthIndex(fin) - MonthIndex(inicio)
  {
    (fin.year - inicio.year) * 12 + (fin.month - inicio.month)
  }

  /** Counting through an intermediate date adds up, and a date is zero months from itself. */
  lemma MesesAditivos(a: Date, b: Date, c: Date)
    ensures MesesEntreFechas(a, b) + MesesEntreFechas(b, c) == MesesEntreFechas(a, c)
    ensures MesesEntreFechas(a, a) == 0
  {
  }

  /** Not later than the reference date means a non-negative count. */
  lemma MesesNoNegativos(inicio: Date, fin: Date)
    requires WellFormedDate(inicio) && !DateBefore(fin, inicio)
    ensures MesesEntreFechas(inicio, fin) >= 0
  {
  }

  /** From the last day of a month to the first of the next counts as a whole month. */
  lemma MesCompletoEnUnDia()
    ensures MesesEntreFechas(Date(2024, 1, 31), Date(2024, 2, 1)) == 1
    ensures MesesEntreFechas(Date(2024, 1, 1), Date(2024, 1, 31)) == 0
  {
  }

  /** `calcularDepreciacion(asset, vidaUtil)` evaluated on `hoy`. */
  function CalcularDepreciacion(asset: Asset, vidaUtil: nat, hoy: Date): (d: Depreciation)
    requires vidaUtil > 0
    ensures d == DepreciacionPorMeses(OriginalValue(asset), vidaUtil, MesesEntreFechas(asset.date, hoy))
    ensures d.mensual * 12.0 * (vidaUtil as real) == OriginalValue(asset)
    ensures d.porcentaje == Percent(d.acumulada, OriginalValue(asset))
    ensures MesesEntreFechas(asset.date, hoy) >= 0 && OriginalValue(asset) >= 0.0 ==>
      0.0 <= d.acumulada <= OriginalValue(asset) && d.valorActual + d.acumulada == OriginalValue(asset)
  {
    var meses := MesesEntreFechas(asset.date, hoy);
    var d := DepreciacionPorMeses(OriginalValue(asset), vidaUtil, meses);
    if meses >= 0 && OriginalValue(asset) >= 0.0 then
      DepreciacionBounds(OriginalValue(asset), vidaUtil, meses);
      d
    else
      d
  }

  /** The percentage the alerts and the physical state look at, with the asset's own useful life. */
  function Porcentaje(asset: Asset, hoy: Date): Num {
    CalcularDepreciacion(asset, VidaUtil(asset.assetType), hoy).porcentaje
  }

  /** 'Depreciación' alert first (over 50%, high priority over 80%), then the high-value alert. */
  method GenerarAlertas(asset: Asset, hoy: Date) returns (alertas: seq<Alert>)
    ensures var p := Porcentaje(asset, hoy);
      var valor := asset.price > 1000.0 && asset.status == "Disponible";
      |alertas| == (if Above(p, 50.0) then 1 else 0) + (if valor then 1 else 0)
      && (forall a | a in alertas :: a.activoId == Some(asset.id))
      && ((exists a | a in alertas :: a.tipo == Depreciacion) <==> Above(p, 50.0))
      && ((exists a | a in alertas :: a.tipo == Valor) <==> valor)
      && (forall a | a in alertas && a.tipo == Depreciacion ::
            a == alertas[0] && a.mensaje == DepreciationReached(p) && (a.prioridad == Alta <==> Above(p, 80.0)))
      && (forall a | a in alertas && a.tipo == Valor ::
            a == alertas[|alertas| - 1] && a.mensaje == HighValueUnassigned && a.prioridad == Media)
  {
    alertas := [];
    var depreciacion := CalcularDepreciacion(asset, VidaUtil(asset.assetType), hoy);
    if Above(depreciacion.porcentaje, 50.0) {
      var prioridad := if Above(depreciacion.porcentaje, 80.0) then Alta else Media;
      alertas := alertas + [Alert(Depreciacion, prioridad, DepreciationReached(depreciacion.porcentaje), Some(asset.id))];
    }
    if asset.price > 1000.0 && asset.status == "Disponible" {
      alertas := alertas + [Alert(Valor, Media, HighValueUnassigned, Some(asset.id))];
    }
  }

  datatype EstadoFisico = Regular | Bueno | Excelente

  /** Over 80% depreciated is 'Regular', over 50% 'Bueno', anything else (NaN included) 'Excelente'. */
  function DeterminarEstadoFisico(d: Depreciation): (e: EstadoFisico)
    ensures e == Regular <==> Above(d.porcentaje, 80.0)
    ensures e == Bueno <==> Above(d.porcentaje, 50.0) && !Above(d.porcentaje, 80.0)
    ensures e == Excelente <==> !Above(d.porcentaje, 50.0)
  {
    if Above(d.porcentaje, 80.0) then Regular
    else if Above(d.porcentaje, 50.0) then Bueno
    else Excelente
  }

  /**
   * The physical state and the depreciation alert read the same thresholds: 'Regular' exactly
   * when the alert is raised with high priority, 'Excelente' exactly when it is not raised.
   */
  lemma EstadoFisicoYAlerta(asset: Asset, hoy: Date)
    ensures var e := DeterminarEstadoFisico(CalcularDepreciacion(asset, VidaUtil(asset.assetType), hoy));
      var p := Porcentaje(asset, hoy);
      (e == Regular <==> Above(p, 50.0) && Above(p, 80.0))
      && (e == Excelente <==> !Above(p, 50.0))
  {
  }

  /** A fully depreciated asset of positive value is in 'Regular' state. */
  lemma EstadoFisicoAlFinDeVida(asset: Asset, hoy: Date)
    requires OriginalValue(asset) > 0.0
    requires MesesEntreFechas(asset.date, hoy) >= 12 * VidaUtil(asset.assetType)
    ensures DeterminarEstadoFisico(CalcularDepreciacion(asset, VidaUtil(asset.assetType), hoy)) == Regular
  {
    DepreciacionCompleta(OriginalValue(asset), VidaUtil(asset.assetType), MesesEntreFechas(asset.date, hoy));
  }

  /** `a => calcularDepreciacion(a, calcularVidaUtil(a.type)).acumulada` on `hoy`. */
  function AcumuladaAl(hoy: Date): Asset -> real {
    (a: Asset) => CalcularDepreciacion(a, VidaUtil(a.assetType), hoy).acumulada
  }

  /** Counts, inventory value and the estimated (accumulated) depreciation of a list of assets. */
  method CalcularResumenGeneral(assets: seq<Asset>, hoy: Date) returns (r: ResumenGeneral)
    ensures r.totalActivos == |assets|
    ensures r.valorTotalInventario == TotalValue(assets)
    ensures r.activosAsignados == |Filter(assets, HasStatus("Asignado"))|
    ensures r.activosDisponibles == |Filter(assets, HasStatus("Disponible"))|
    ensures r.depreciacionEstimada == SumBy(assets, AcumuladaAl(hoy))
  {
    var depreciacionTotal := 0.0;
    var i := 0;
    while i < |assets|
      invariant 0 <= i <= |assets|
      invariant depreciacionTotal == SumBy(assets[..i], AcumuladaAl(hoy))
    {
      var asset := assets[i];
      var depreciacion := CalcularDepreciacion(asset, VidaUtil(asset.assetType), hoy);
      assert assets[..i + 1] == assets[..i] + [asset];
      SumByAppend(assets[..i], asset, AcumuladaAl(hoy));
      depreciacionTotal := depreciacionTotal + depreciacion.acumulada;
      i := i + 1;
    }
    assert assets[..i] == assets;
    r := ResumenGeneral(
      |assets|,
      TotalValue(assets),
      |Filter(assets, HasStatus("Asignado"))|,
      |Filter(assets, HasStatus("Disponible"))|,
      depreciacionTotal);
  }

  /** 'Asignado' is not an asset status, so a list of well-typed assets has no assigned ones. */
  lemma AsignadosSiempreCero(assets: seq<Asset>)
    requires forall a | a in assets :: IsAssetStatus(a.status)
    ensures Filter(assets, HasStatus("Asignado")) == []
  {
  }

  /**
   * For assets acquired no later than the reference month and of non-negative value, the
   * estimated depreciation lies between zero and the inventory value.
   */
  lemma DepreciacionEstimadaAcotada(assets: seq<Asset>, hoy: Date)
    requires forall a | a in assets :: MesesEntreFechas(a.date, hoy) >= 0 && OriginalValue(a) >= 0.0
    ensures 0.0 <= SumBy(assets, AcumuladaAl(hoy)) <= TotalValue(assets)
  {
    SumByBounds(assets, AcumuladaAl(hoy), OriginalValue);
  }

  /** The earliest acquisition date of a non-empty list. */
  function FechaMasAntigua(assets: seq<Asset>): (d: Date)
    requires |assets| > 0
    ensures exists i :: 0 <= i < |assets| && assets[i].date == d
    ensures forall i :: 0 <= i < |assets| ==> !DateBefore(assets[i].date, d)
  {
    if |assets| == 1 then assets[0].date
    else
      var rest := FechaMasAntigua(assets[1..]);
      assert forall i :: 1 <= i < |assets| ==> assets[i] == assets[1..][i - 1];
      if DateBefore(assets[0].date, rest) then assets[0].date else rest
  }

  /**
   * Start of the audited period: the earliest acquisition date as `YYYY-MM-DD`, or
   * January 1st of the current year (year not padded) when there are no assets.
   */
  function PeriodoInicio(assets: seq<Asset>, hoy: Date): (s: string)
    ensures assets == [] ==> s == Decimal(hoy.year) + "-01-01"
    ensures assets != [] ==> s == Iso(FechaMasAntigua(assets))
  {
    if assets == [] then Decimal(hoy.year) + "-01-01" else Iso(FechaMasAntigua(assets))
  }

  /** Of well-formed dates, the period start is one of the dates and no date's text sorts before it. */
  lemma PeriodoInicioEsMinimo(assets: seq<Asset>, hoy: Date)
    requires assets != []
    requires forall a | a in assets :: WellFormedDate(a.date)
    ensures exists i :: 0 <= i < |assets| && Iso(assets[i].date) == PeriodoInicio(assets, hoy)
    ensures forall i :: 0 <= i < |assets| ==> !LexLess(Iso(assets[i].date), PeriodoInicio(assets, hoy))
  {
    var d := FechaMasAntigua(assets);
    forall i | 0 <= i < |assets|
      ensures !LexLess(Iso(assets[i].date), Iso(d))
    {
      assert assets[i] in assets;
      var j :| 0 <= j < |assets| && assets[j].date == d;
      assert assets[j] in assets;
      IsoOrder(assets[i].date, d);
    }
  }

  /** `PAT-<year>-<position>`: the first four characters of the date and the 1-based position padded to three digits. */
  function CodigoPatrimonial(asset: Asset, index: nat): (s: string)
    ensures |s| >= 12
    ensures s[..4] == "PAT-" && s[4..8] == Digits(asset.date.year, 4) && s[8] == '-'
    ensures s[9..] == PadStart(Decimal(index + 1), 3, '0')
  {
    "PAT-" + Iso(asset.date)[..4] + "-" + PadStart(Decimal(index + 1), 3, '0')
  }

  /** The zero-padded position reads back as the position. */
  lemma PosicionLegible(n: nat)
    ensures AllDigits(PadStart(Decimal(n), 3, '0'))
    ensures DecimalValue(PadStart(Decimal(n), 3, '0')) == n
  {
    var t := Decimal(n);
    DecimalValueZeros(|PadStart(t, 3, '0')| - |t|, t);
    DecimalRoundTrip(n);
  }

  /** The position part of the code determines the position: different positions give different codes. */
  lemma CodigoPatrimonialInyectivo(a: Asset, b: Asset, i: nat, j: nat)
    requires i != j
    ensures CodigoPatrimonial(a, i) != CodigoPatrimonial(b, j)
  {
    PosicionInyectiva(i + 1, j + 1);
    var ca, cb := CodigoPatrimonial(a, i), CodigoPatrimonial(b, j);
    assert ca[9..] != cb[9..];
  }

  lemma PosicionInyectiva(m: nat, n: nat)
    requires m != n
    ensures PadStart(Decimal(m), 3, '0') != PadStart(Decimal(n), 3, '0')
  {
    PosicionLegible(m);
    PosicionLegible(n);
  }

  /** Positions below 999 take exactly three digits: `PAT-2024-001` is twelve characters. */
  lemma CodigoPatrimonialEjemplo(a: Asset)
    requires a.date.year == 2024
    ensures CodigoPatrimonial(a, 0) == "PAT-2024-001"
  {
  }
}
