/**
 * The audit generators' rules, which the Angular service and the stand-alone script write
 * out identically: criticality by unit price, useful life by asset type, and straight-line
 * depreciation over the useful life counted in elapsed months. The two generators differ
 * only in how they count the months; each passes its own count in.
 */
module MonthDepreciation {
  import opened Wrappers
  import opened Numbers
  import opened AssetModel

  /** Criticality by unit price: above 500 is high, above 100 medium, anything else low. */
  function Criticidad(asset: Asset): (c: Criticality)
    ensures c == Alta <==> asset.price > 500.0
    ensures c == Media <==> 100.0 < asset.price <= 500.0
    ensures c == Baja <==> asset.price <= 100.0
  {
    if asset.price > 500.0 then Alta
    else if asset.price > 100.0 then Media
    else Baja
  }

  /** Alta ranks highest. */
  function LevelRank(l: Level): nat {
    match l
    case Alta => 2
    case Media => 1
    case Baja => 0
  }

  /** A dearer asset is never less critical. */
  lemma CriticidadMonotone(a: Asset, b: Asset)
    requires a.price <= b.price
    ensures LevelRank(Criticidad(a)) <= LevelRank(Criticidad(b))
  {
  }

  const VIDA_COMPUTO: string := "Equipos de cómputo y software"
  const VIDA_INSTALACIONES: string := "Instalaciones, maquinaria, equipos y muebles"

  /**
   * Useful life in years: a lookup in a four-entry table, falling back to 5 years.
   * Two of the table keys ('Vehículos', 'Edificios') are not asset types.
   */
  function VidaUtil(tipo: string): (years: nat)
    ensures years == 5 || years == 7 || years == 10 || years == 20
    ensures years == 7 <==> tipo == "Vehículos"
    ensures years == 20 <==> tipo == "Edificios"
    ensures years == 10 <==> tipo == VIDA_INSTALACIONES
  {
    if tipo == VIDA_COMPUTO then 5
    else if tipo == VIDA_INSTALACIONES then 10
    else if tipo == "Vehículos" then 7
    else if tipo == "Edificios" then 20
    else 5
  }

  /**
   * For the asset types that actually exist the table yields 10 years for installations
   * and machinery and 5 years for everything else: the 7- and 20-year entries never apply.
   */
  lemma VidaUtilAssetTypes(tipo: string)
    requires IsAssetType(tipo)
    ensures VidaUtil(tipo) == if tipo == VIDA_INSTALACIONES then 10 else 5
  {
    assert tipo != "Vehículos" && tipo != "Edificios" by {
      forall i | 0 <= i < |ASSET_TYPES|
        ensures ASSET_TYPES[i] != "Vehículos" && ASSET_TYPES[i] != "Edificios"
      {
      }
    }
  }

  /**
   * Straight-line depreciation of `total` over `vida` years after `meses` elapsed months:
   * a twelfth of the annual share per month, capped at the total; the book value is what
   * remains, floored at zero; the percentage is the accumulated share of the total.
   */
  function DepreciacionPorMeses(total: real, vida: nat, meses: int): (d: Depreciation)
    requires vida > 0
    ensures d.anual * (vida as real) == total
    ensures d.mensual * 12.0 == d.anual
    ensures d.acumulada <= total && d.acumulada <= d.mensual * (meses as real)
    ensures d.acumulada == total || d.acumulada == d.mensual * (meses as real)
    ensures d.valorActual >= 0.0 && d.valorActual >= total - d.acumulada
    ensures d.valorActual == 0.0 || d.valorActual == total - d.acumulada
    ensures d.porcentaje == Percent(d.acumulada, total)
    ensures d.anosUso == None
  {
    var anual := total / (vida as real);
    var mensual := anual / 12.0;
    var acumulada := Min(mensual * (meses as real), total);
    Depreciation(anual, mensual, acumulada, Max(total - acumulada, 0.0), Percent(acumulada, total), None)
  }

  /**
   * For an asset in use (months not negative, value not negative) the accumulated amount
   * and the book value split the total, and the percentage is a finite share in [0, 100]
   * once the total is positive.
   */
  lemma DepreciacionBounds(total: real, vida: nat, meses: int)
    requires vida > 0 && meses >= 0 && total >= 0.0
    ensures var d := DepreciacionPorMeses(total, vida, meses);
      0.0 <= d.acumulada <= total
      && 0.0 <= d.valorActual <= total
      && d.valorActual + d.acumulada == total
      && (total > 0.0 ==> d.porcentaje.Finite? && 0.0 <= d.porcentaje.value <= 100.0)
  {
    var d := DepreciacionPorMeses(total, vida, meses);
    assert d.anual >= 0.0;
    MulNonNegative(d.mensual, meses as real);
    if total > 0.0 {
      var q := d.acumulada / total;
      assert q * total == d.acumulada;
      assert 0.0 <= q <= 1.0 by {
        if q > 1.0 {
          ProductMonotone(total, 1.0, q);
        }
      }
    }
  }

  /** More elapsed months never lower the accumulated depreciation. */
  lemma DepreciacionMonotone(total: real, vida: nat, m1: int, m2: int)
    requires vida > 0 && m1 <= m2 && total >= 0.0
    ensures DepreciacionPorMeses(total, vida, m1).acumulada <= DepreciacionPorMeses(total, vida, m2).acumulada
  {
    var d1, d2 := DepreciacionPorMeses(total, vida, m1), DepreciacionPorMeses(total, vida, m2);
    assert d1.anual >= 0.0;
    ProductMonotone(d1.mensual, m1 as real, m2 as real);
  }

  /**
   * Up to the end of the useful life the accumulated amount is the elapsed fraction
   * `meses / (12 * vida)` of the total.
   */
  lemma DepreciacionProporcional(total: real, vida: nat, meses: int)
    requires vida > 0 && 0 <= meses <= 12 * vida && total >= 0.0
    ensures DepreciacionPorMeses(total, vida, meses).acumulada == total * (meses as real) / ((12 * vida) as real)
  {
    var d := DepreciacionPorMeses(total, vida, meses);
    var months := (12 * vida) as real;
    assert d.mensual * months == total by {
      assert d.mensual * months == (d.mensual * 12.0) * (vida as real);
    }
    assert d.mensual >= 0.0;
    ProductMonotone(d.mensual, meses as real, months);
    assert d.acumulada == d.mensual * (meses as real);
    assert d.acumulada * months == total * (meses as real) by {
      assert d.acumulada * months == (d.mensual * months) * (meses as real);
    }
  }

  /** From twelve months per year of useful life on, the asset is fully depreciated. */
  lemma DepreciacionCompleta(total: real, vida: nat, meses: int)
    requires vida > 0 && meses >= 12 * vida && total >= 0.0
    ensures DepreciacionPorMeses(total, vida, meses).acumulada == total
    ensures DepreciacionPorMeses(total, vida, meses).valorActual == 0.0
    ensures total > 0.0 ==> DepreciacionPorMeses(total, vida, meses).porcentaje == Finite(100.0)
  {
    var d := DepreciacionPorMeses(total, vida, meses);
    var months := (12 * vida) as real;
    assert d.mensual * months == total by {
      assert d.mensual * months == (d.mensual * 12.0) * (vida as real);
    }
    assert d.mensual >= 0.0;
    ProductMonotone(d.mensual, months, meses as real);
    if total > 0.0 {
      assert d.acumulada / total == 1.0;
    }
  }

  /**
   * The months are not clamped: a reference date before acquisition gives a negative
   * accumulated amount and a book value above the total.
   */
  lemma DepreciacionSinRecorte(total: real, vida: nat, meses: int)
    requires vida > 0 && meses < 0 && total > 0.0
    ensures DepreciacionPorMeses(total, vida, meses).acumulada < 0.0
    ensures DepreciacionPorMeses(total, vida, meses).valorActual > total
  {
    var d := DepreciacionPorMeses(total, vida, meses);
    assert d.mensual > 0.0;
    assert d.mensual * (meses as real) < 0.0;
  }
}
