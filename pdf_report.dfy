/**
 * The PDF report service without the page layout: its copy of the rate table, the
 * inventory summary, and the per-status and per-type tables with their footer row.
 */
module PdfReport {
  import opened Numbers
  import opened Seqs
  import opened AssetModel
  import opened Grouping

  /** The service's own rate table. */
  const PDF_RATES: map<string, real> := map[
    "Edificaciones" := 0.05,
    "Instalaciones, maquinaria, equipos y muebles" := 0.10,
    "Vehículos y equipo caminero" := 0.20,
    "Equipos de cómputo y software" := 0.33,
    "Barcazas y aeronaves" := 0.05,
    "Aviones de fumigación" := 0.25,
    "Otros aviones" := 0.10,
    "Equipo ferroviario" := 0.06,
    "Vehículos de carga" := 0.25,
    "Vehículos eléctricos ligeros" := 0.25,
    "Equipos de Laboratorio" := 0.10
  ]

  /** The copy agrees with the model's table. */
  lemma PdfRatesMatchModel()
    ensures PDF_RATES == DEPRECIATION_RATES
  {
  }

  /** One body row of a breakdown table before number formatting. */
  datatype TableRow = TableRow(key: string, count: nat, value: real, percent: Num)

  /** The 'TOTAL' footer: number of assets and inventory value (its share is always printed as 100%). */
  datatype Footer = Footer(count: nat, value: real)

  function RowCount(r: TableRow): real { r.count as real }

  function RowValue(r: TableRow): real { r.value }

  /** `Array.from(map.entries()).map(...)`: one row per entry, in entry order. */
  function TableRows(groups: seq<Group>, totalValue: real): (rows: seq<TableRow>)
    ensures |rows| == |groups|
    ensures forall i :: 0 <= i < |groups| ==>
      rows[i] == TableRow(groups[i].key, groups[i].count, groups[i].value, Percent(groups[i].value, totalValue))
  {
    seq(|groups|, i requires 0 <= i < |groups| =>
      TableRow(groups[i].key, groups[i].count, groups[i].value, Percent(groups[i].value, totalValue)))
  }

  /** The rows carry the entries' counts and values, so they add up the same. */
  lemma {:induction false} TableRowSums(groups: seq<Group>, totalValue: real)
    ensures SumBy(TableRows(groups, totalValue), RowCount) == SumBy(groups, GroupCount)
    ensures SumBy(TableRows(groups, totalValue), RowValue) == SumBy(groups, GroupValue)
  {
    if groups != [] {
      var n := |groups| - 1;
      TableRowSums(groups[..n], totalValue);
      assert TableRows(groups, totalValue)[..n] == TableRows(groups[..n], totalValue);
    }
  }

  /**
   * `generarReportePorEstado` / `generarReportePorTipo` without the drawing: the rows in
   * first-occurrence order and the footer. The footer agrees with the body: its count is
   * the sum of the row counts and its value the sum of the row values.
   */
  method GroupTable(assets: seq<Asset>, field: GroupField) returns (rows: seq<TableRow>, footer: Footer)
    ensures footer == Footer(|assets|, TotalValue(assets))
    ensures SumBy(rows, RowCount) == footer.count as real
    ensures SumBy(rows, RowValue) == footer.value
    ensures forall i, j :: 0 <= i < j < |rows| ==> rows[i].key != rows[j].key
    ensures forall i :: 0 <= i < |rows| ==>
      rows[i].count == CountOf(assets, field, rows[i].key)
      && rows[i].value == ValueOf(assets, field, rows[i].key)
      && rows[i].percent == Percent(rows[i].value, footer.value)
  {
    var groups, totalValue := GroupAssets(assets, field);
    rows := TableRows(groups, totalValue);
    footer := Footer(|assets|, totalValue);
    TableRowSums(groups, totalValue);
    forall j | 0 <= j < |rows|
      ensures rows[j].count == CountOf(assets, field, rows[j].key)
      ensures rows[j].value == ValueOf(assets, field, rows[j].key)
    {
      assert groups[j] in groups;
    }
  }
}
