/**
 * The stand-alone browser script's audit rules. It shares criticality and useful life with
 * the Angular service but counts elapsed months as whole 30-day periods, raises only the
 * depreciation alert, estimates depreciation as a flat tenth of the inventory value and
 * looks the certificate's asset up by a textual id. Elapsed time is given in whole days.
 */
module XmlAuditoriaJs {
  import opened Wrappers
  import opened Numbers
  import opened Text
  import opened Seqs
  import opened AssetModel
  import opened MonthDepreciation

  /** `Math.floor(elapsed / 30 days)`: whole 30-day periods, rounded down also when negative. */
  function MesesTreintaDias(elapsedDays: int): (meses: int)
    ensures 30 * meses <= elapsedDays < 30 * (meses + 1)
  {
    elapsedDays / 30
  }

  /** Thirty more days is exactly one more month, and the count never decreases. */
  lemma MesesTreintaDiasPaso(d1: int, d2: int)
    requires d1 <= d2
    ensures MesesTreintaDias(d1 + 30) == MesesTreintaDias(d1) + 1
    ensures MesesTreintaDias(d1) <= MesesTreintaDias(d2)
  {
    var m1, m2 := MesesTreintaDias(d1), MesesTreintaDias(d2);
    assert 30 * m1 <= d1 <= d2 < 30 * (m2 + 1);
  }

  /** A year of 365 days counts 12 months; a day before acquisition already counts as -1. */
  lemma MesesTreintaDiasEjemplos()
    ensures MesesTreintaDias(365) == 12 && MesesTreintaDias(29) == 0 && MesesTreintaDias(-1) == -1
  {
  }

  /** `calcularDepreciacion(asset, vidaUtil)` after `elapsedDays` days. */
  function CalcularDepreciacion(asset: Asset, vidaUtil: nat, elapsedDays: int): (d: Depreciation)
    requires vidaUtil > 0
    ensures d == DepreciacionPorMeses(OriginalValue(asset), vidaUtil, MesesTreintaDias(elapsedDays))
    ensures d.mensual * 12.0 * (vidaUtil as real) == OriginalValue(asset)
    ensures d.porcentaje == Percent(d.acumulada, OriginalValue(asset))
    ensures elapsedDays >= 0 && OriginalValue(asset) >= 0.0 ==>
      0.0 <= d.acumulada <= OriginalValue(asset) && d.valorActual + d.acumulada == OriginalValue(asset)
  {
    var meses := MesesTreintaDias(elapsedDays);
    var d := DepreciacionPorMeses(OriginalValue(asset), vidaUtil, meses);
    if elapsedDays >= 0 && OriginalValue(asset) >= 0.0 then
      DepreciacionBounds(OriginalValue(asset), vidaUtil, meses);
      d
    else
      d
  }

  /** Accumulated depreciation never decreases as days go by. */
  lemma CalcularDepreciacionMonotone(asset: Asset, vidaUtil: nat, d1: int, d2: int)
    requires vidaUtil > 0 && d1 <= d2 && OriginalValue(asset) >= 0.0
    ensures CalcularDepreciacion(asset, vidaUtil, d1).acumulada <= CalcularDepreciacion(asset, vidaUtil, d2).acumulada
  {
    MesesTreintaDiasPaso(d1, d2);
    DepreciacionMonotone(OriginalValue(asset), vidaUtil, MesesTreintaDias(d1), MesesTreintaDias(d2));
  }

  /** The percentage the alert looks at, with the asset's own useful life. */
  function Porcentaje(asset: Asset, elapsedDays: int): Num {
    CalcularDepreciacion(asset, VidaUtil(asset.assetType), elapsedDays).porcentaje
  }

  /** At most one alert, for depreciation over 50% (high priority over 80%), without an asset id. */
  method GenerarAlertas(asset: Asset, elapsedDays: int) returns (alertas: seq<Alert>)
    ensures var p := Porcentaje(asset, elapsedDays);
      |alertas| == (if Above(p, 50.0) then 1 else 0)
      && forall a | a in alertas ::
           a.tipo == Depreciacion && a.activoId == None && a.mensaje == DepreciationReached(p)
           && (a.prioridad == Alta <==> Above(p, 80.0)) && (a.prioridad == Media <==> !Above(p, 80.0))
  {
    alertas := [];
    var depreciacion := CalcularDepreciacion(asset, VidaUtil(asset.assetType), elapsedDays);
    if Above(depreciacion.porcentaje, 50.0) {
      var prioridad := if Above(depreciacion.porcentaje, 80.0) then Alta else Media;
      alertas := alertas + [Alert(Depreciacion, prioridad, DepreciationReached(depreciacion.porcentaje), None)];
    }
  }

  /** The summary figures of the audit report; the depreciation estimate is 10% of the inventory value. */
  function Resumen(assets: seq<Asset>): (r: ResumenGeneral)
    ensures r.totalActivos == |assets|
    ensures r.valorTotalInventario == TotalValue(assets)
    ensures r.activosAsignados == |Filter(assets, HasStatus("Asignado"))|
    ensures r.activosDisponibles == |Filter(assets, HasStatus("Disponible"))|
    ensures r.depreciacionEstimada * 10.0 == r.valorTotalInventario
  {
    var valorTotal := TotalValue(assets);
    ResumenGeneral(
      |assets|,
      valorTotal,
      |Filter(assets, HasStatus("Asignado"))|,
      |Filter(assets, HasStatus("Disponible"))|,
      valorTotal * 0.10)
  }

  /** No asset with a status of the union is counted as 'Asignado'. */
  lemma ResumenSinAsignados(assets: seq<Asset>)
    requires forall a | a in assets :: IsAssetStatus(a.status)
    ensures Resumen(assets).activosAsignados == 0
  {
    FilterNone(assets, HasStatus("Asignado"));
  }

  /** An asset is counted as assigned or as available, never as both. */
  lemma ResumenCuentasCaben(assets: seq<Asset>)
    ensures Resumen(assets).activosAsignados + Resumen(assets).activosDisponibles <= Resumen(assets).totalActivos
  {
    DisjointFilters(assets, HasStatus("Asignado"), HasStatus("Disponible"));
  }

  /** With no negative asset value, the flat estimate lies between zero and the inventory value. */
  lemma ResumenDepreciacionAcotada(assets: seq<Asset>)
    requires forall a | a in assets :: OriginalValue(a) >= 0.0
    ensures 0.0 <= Resumen(assets).depreciacionEstimada <= Resumen(assets).valorTotalInventario
  {
    SumByBounds(assets, OriginalValue, OriginalValue);
  }

  /** An empty inventory summarises to zeros. */
  lemma ResumenVacio()
    ensures Resumen([]) == ResumenGeneral(0, 0.0, 0, 0, 0.0)
  {
  }

  /** The certificate's lookup: the first asset whose id is `parseInt(assetId)`; none when the text is not a number. */
  function CertificadoActivo(assets: seq<Asset>, assetId: string): (r: Option<Asset>)
    ensures ParseInt(assetId).None? ==> r.None?
    ensures ParseInt(assetId).Some? ==> r == FindById(assets, ParseInt(assetId).value)
  {
    match ParseInt(assetId)
    case None => None
    case Some(id) => FindById(assets, id)
  }

  /** An id written out in decimal finds the same asset as the numeric lookup. */
  lemma CertificadoPorTexto(assets: seq<Asset>, id: nat)
    ensures CertificadoActivo(assets, Decimal(id)) == FindById(assets, id)
    ensures CertificadoActivo(assets, Decimal(id)).None? <==> forall a | a in assets :: a.id != id
  {
    ParseIntDecimal(id);
  }

  /** An id written with a `0x` prefix is read in base 16: `"0x10"` finds the asset with id 16. */
  lemma CertificadoHexadecimal(assets: seq<Asset>, h: string)
    requires h != [] && AllHexDigits(h)
    ensures CertificadoActivo(assets, "0x" + h) == FindById(assets, HexValue(h))
  {
    ParseIntHex(h);
  }

  /** The text `"0x10"` denotes 16. */
  lemma HexadecimalEjemplo(h: string)
    requires h == "10"
    ensures AllHexDigits(h) && HexValue(h) == 16
  {
    assert h[..1] == "1" && h[1] == '0';
    assert HexValue("1") == 1 by {
      assert "1"[..0] == "";
    }
  }
}
