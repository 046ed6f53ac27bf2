/**
 * The CSV report service: its copy of the rate table, field quoting, the per-status and per-type breakdown rows, the per-unit value column and the
 * assembly of header and rows into the file text (everything before the download).
 */
module CsvReport {
  import opened Numbers
  import opened Text
  import opened Seqs
  import opened AssetModel
  import opened RateDepreciation
  import opened Grouping

  /** The service's own rate table. */
  const CSV_RATES: map<string, real> := map[
    "Edificaciones" := 0.05,
    "Instalaciones, maquinaria, equipos y muebles" := 0.10,
    "Vehículos y equipo caminero" := 0.20,
    "Equipos de cómputo y software" := 0.33,
    "Barcazas y aeronaves" := 0.05,
    "Aviones de fumigación" := 0.25,
    "Otros aviones" := 0.10,
    "Equipo ferroviario" := 0.06,
    "Vehículos de carga" := 0.25,
    "Vehículos eléctricos ligeros" := 0.25,
    "Equipos de Laboratorio" := 0.10
  ]

  /** The copy agrees with the model's table. */
  lemma CsvRatesMatchModel()
    ensures CSV_RATES == DEPRECIATION_RATES
  {
  }

  /** The 'Valor Actual Unitario' column, `currentValue / quantity`. */
  function UnitCurrentValue(asset: Asset, d: RateDepreciation): (u: Num)
    ensures asset.quantity != 0 ==> u.Finite? && u.value * (asset.quantity as real) == d.currentValue
    ensures asset.quantity == 0 ==> !u.Finite?
  {
    Div(d.currentValue, asset.quantity as real)
  }

  // ---------------------------------------------------------------------------
  // Field quoting.

  /** Every `"` written twice. */
  function DoubleQuotes(s: string): (r: string)
    ensures |r| == |s| + CountChar(s, '"')
  {
    if s == [] then ""
    else if s[0] == '"' then "\"\"" + DoubleQuotes(s[1..])
    else [s[0]] + DoubleQuotes(s[1..])
  }

  /** Whether the value needs quoting: it holds a comma, a quote or a line feed. */
  predicate NeedsQuoting(value: string) {
    ',' in value || '"' in value || '\n' in value
  }

  /** `escapeCsvValue`: quoted with inner quotes doubled when needed, otherwise unchanged. */
  function EscapeCsvValue(value: string): (r: string)
    ensures !NeedsQuoting(value) <==> r == value
    ensures NeedsQuoting(value) ==> |r| >= 2 && r[0] == '"' && r[|r| - 1] == '"'
  {
    if NeedsQuoting(value) then "\"" + DoubleQuotes(value) + "\"" else value
  }

  /** `""` read back as `"`. */
  function CollapseQuotes(s: string): string {
    if |s| >= 2 && s[0] == '"' && s[1] == '"' then "\"" + CollapseQuotes(s[2..])
    else if s == [] then ""
    else [s[0]] + CollapseQuotes(s[1..])
  }

  /** Reading one field back: strip the enclosing quotes and collapse the doubled ones. */
  function UnescapeCsvValue(field: string): string {
    if |field| >= 2 && field[0] == '"' && field[|field| - 1] == '"' then CollapseQuotes(field[1..|field| - 1])
    else field
  }

  lemma {:induction false} CollapseDoubled(s: string)
    ensures CollapseQuotes(DoubleQuotes(s)) == s
  {
    if s != [] {
      CollapseDoubled(s[1..]);
      if s[0] == '"' {
        assert DoubleQuotes(s)[2..] == DoubleQuotes(s[1..]);
      } else {
        assert DoubleQuotes(s)[1..] == DoubleQuotes(s[1..]);
      }
      assert s == [s[0]] + s[1..];
    }
  }

  /** Reading an escaped field back gives the original value. */
  lemma EscapeRoundTrip(value: string)
    ensures UnescapeCsvValue(EscapeCsvValue(value)) == value
  {
    if NeedsQuoting(value) {
      var r := EscapeCsvValue(value);
      assert r[1..|r| - 1] == DoubleQuotes(value);
      CollapseDoubled(value);
    } else if |value| >= 2 {
      assert value[0] != '"' by {
        assert value[0] in value;
      }
    }
  }

  function CountChar(s: string, c: char): nat {
    if s == [] then 0 else (if s[0] == c then 1 else 0) + CountChar(s[1..], c)
  }

  lemma {:induction false} CountCharConcat(a: string, b: string, c: char)
    ensures CountChar(a + b, c) == CountChar(a, c) + CountChar(b, c)
  {
    if a != [] {
      assert (a + b)[1..] == a[1..] + b;
      CountCharConcat(a[1..], b, c);
    } else {
      assert a + b == b;
    }
  }

  lemma {:induction false} DoubledQuoteCount(s: string)
    ensures CountChar(DoubleQuotes(s), '"') == 2 * CountChar(s, '"')
  {
    if s != [] {
      DoubledQuoteCount(s[1..]);
      if s[0] == '"' {
        CountCharConcat("\"\"", DoubleQuotes(s[1..]), '"');
      } else {
        CountCharConcat([s[0]], DoubleQuotes(s[1..]), '"');
      }
    }
  }

  /** A quoted field holds an even number of quote characters. */
  lemma EscapedQuotesEven(value: string)
    requires NeedsQuoting(value)
    ensures CountChar(EscapeCsvValue(value), '"') % 2 == 0
  {
    var inner := DoubleQuotes(value);
    DoubledQuoteCount(value);
    CountCharConcat("\"", inner, '"');
    CountCharConcat("\"" + inner, "\"", '"');
  }

  // ---------------------------------------------------------------------------
  // Breakdown rows and file text.

  /** One line of the per-status or per-type report before number formatting. */
  datatype GroupRow = GroupRow(name: string, count: nat, value: real, percent: Num)

  /** `Array.from(map.entries()).map(...)`: one row per entry, its key escaped. */
  function ReportRows(groups: seq<Group>, totalValue: real): (rows: seq<GroupRow>)
    ensures |rows| == |groups|
    ensures forall i :: 0 <= i < |groups| ==>
      rows[i] == GroupRow(EscapeCsvValue(groups[i].key), groups[i].count, groups[i].value, Percent(groups[i].value, totalValue))
  {
    seq(|groups|, i requires 0 <= i < |groups| =>
      GroupRow(EscapeCsvValue(groups[i].key), groups[i].count, groups[i].value, Percent(groups[i].value, totalValue)))
  }

  /**
   * `generarReportePorEstado` / `generarReportePorTipo` up to the download: one row per key in
   * first-occurrence order whose name reads back as the key, with the key's count, value and
   * share of the total.
   */
  method GroupReportRows(assets: seq<Asset>, field: GroupField) returns (rows: seq<GroupRow>, totalValue: real)
    ensures totalValue == TotalValue(assets)
    ensures |rows| == |Grouped(assets, field)|
    ensures forall i :: 0 <= i < |rows| ==>
      var k := Grouped(assets, field)[i].key;
      UnescapeCsvValue(rows[i].name) == k
      && rows[i].count == CountOf(assets, field, k)
      && rows[i].value == ValueOf(assets, field, k)
      && rows[i].percent == Percent(rows[i].value, totalValue)
  {
    var groups;
    groups, totalValue := GroupAssets(assets, field);
    rows := ReportRows(groups, totalValue);
    forall j | 0 <= j < |rows|
      ensures UnescapeCsvValue(rows[j].name) == groups[j].key
      ensures rows[j].count == CountOf(assets, field, groups[j].key)
      ensures rows[j].value == ValueOf(assets, field, groups[j].key)
    {
      EscapeRoundTrip(groups[j].key);
      assert groups[j] in groups;
    }
  }

  /** `rows.map(row => row.join(','))`. */
  function RowLines(rows: seq<seq<string>>): (lines: seq<string>)
    ensures |lines| == |rows|
    ensures forall i :: 0 <= i < |rows| ==> lines[i] == Join(rows[i], ',')
  {
    seq(|rows|, i requires 0 <= i < |rows| => Join(rows[i], ','))
  }

  /** The CSV text: the header line, then one line per row, separated by line feeds. */
  function CsvContent(headers: seq<string>, rows: seq<seq<string>>): string {
    Join([Join(headers, ',')] + RowLines(rows), '\n')
  }

  /** The downloaded file: a byte-order mark, then the content. */
  function CsvFile(headers: seq<string>, rows: seq<seq<string>>): (f: string)
    ensures |f| >= 1 && f[0] == '\U{FEFF}' && f[1..] == CsvContent(headers, rows)
  {
    "\U{FEFF}" + CsvContent(headers, rows)
  }

  /** No cell holds a line feed. */
  predicate SingleLineCells(headers: seq<string>, rows: seq<seq<string>>) {
    (forall j :: 0 <= j < |headers| ==> '\n' !in headers[j])
    && (forall i, j :: 0 <= i < |rows| && 0 <= j < |rows[i]| ==> '\n' !in rows[i][j])
  }

  /**
   * With single-line cells the text has exactly one line more than there are rows: the
   * header, then each row's cells joined by commas.
   */
  lemma CsvLines(headers: seq<string>, rows: seq<seq<string>>)
    requires SingleLineCells(headers, rows)
    ensures Split(CsvContent(headers, rows), '\n') == [Join(headers, ',')] + RowLines(rows)
    ensures |Split(CsvContent(headers, rows), '\n')| == |rows| + 1
  {
    var parts := [Join(headers, ',')] + RowLines(rows);
    JoinAvoids(headers, ',', '\n');
    forall i | 0 <= i < |rows|
      ensures '\n' !in Join(rows[i], ',')
    {
      JoinAvoids(rows[i], ',', '\n');
    }
    assert forall i :: 0 <= i < |parts| ==> '\n' !in parts[i] by {
      forall i | 0 <= i < |parts|
        ensures '\n' !in parts[i]
      {
        if i > 0 {
          assert parts[i] == Join(rows[i - 1], ',');
        }
      }
    }
    SplitJoin(parts, '\n');
  }
}
