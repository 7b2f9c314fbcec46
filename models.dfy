/** The records the pipeline stores. `SafraAnual` is the model of core/models.py; the weather
    station, the satellite locality and the daily observation are the records the ingestion
    commands write, with the fields those commands set. */
module Models {
  import opened Wrappers
  import opened Text
  import opened Calendar

  /** The natural key of a `SafraAnual` row: `unique_together = ('ano', 'uf', 'produto')`.
      `ano` is the year the agricultural season starts in. */
  datatype SafraKey = SafraKey(ano: int, uf: string, produto: string)

  /** The three measures of a `SafraAnual` row; each column is `null=True`, so each may be
      absent on its own. */
  datatype Medidas = Medidas(
    areaPlantadaHa: Option<real>,
    producaoToneladas: Option<real>,
    produtividadeKgHa: Option<real>)

  /** One crop-statistics record, as the model class declares its fields. */
  datatype SafraAnual = SafraAnual(
    ano: int,
    uf: string,
    produto: string,
    areaPlantadaHa: Option<real>,
    producaoToneladas: Option<real>,
    produtividadeKgHa: Option<real>)

  const UfMaxLength: nat := 2
  const ProdutoMaxLength: nat := 255

  /** The key fits the declared `max_length` of its two text columns. A database that enforces
      the lengths refuses to store a key that does not. */
  predicate FitsColumns(k: SafraKey) {
    |k.uf| <= UfMaxLength && |k.produto| <= ProdutoMaxLength
  }

  function KeyOf(r: SafraAnual): SafraKey {
    SafraKey(r.ano, r.uf, r.produto)
  }

  function MedidasOf(r: SafraAnual): Medidas {
    Medidas(r.areaPlantadaHa, r.producaoToneladas, r.produtividadeKgHa)
  }

  /** The record a table row stands for. */
  function Record(k: SafraKey, m: Medidas): (r: SafraAnual)
    ensures KeyOf(r) == k && MedidasOf(r) == m
  {
    SafraAnual(k.ano, k.uf, k.produto, m.areaPlantadaHa, m.producaoToneladas, m.produtividadeKgHa)
  }

  /** A stored crop table: one set of measures per natural key. */
  type SafraTable = map<SafraKey, Medidas>

  /** The records a table holds. */
  function Records(t: SafraTable): set<SafraAnual> {
    set k | k in t :: Record(k, t[k])
  }

  /** The uniqueness constraint: a table holds at most one record per natural key, and every
      record it holds is the one stored under its key. This holds by construction, because the
      table is a map keyed by `SafraKey`; the lemma states that the modelled table enforces
      the database constraint rather than proving that the database does. */
  lemma UniqueNaturalKey(t: SafraTable, r1: SafraAnual, r2: SafraAnual)
    requires r1 in Records(t) && r2 in Records(t)
    requires KeyOf(r1) == KeyOf(r2)
    ensures r1 == r2
    ensures KeyOf(r1) in t && t[KeyOf(r1)] == MedidasOf(r1)
  {
    var k1 :| k1 in t && r1 == Record(k1, t[k1]);
    var k2 :| k2 in t && r2 == Record(k2, t[k2]);
  }

  /** `SafraAnual.__str__`: `"<produto> em <uf> - Safra <ano>"`. */
  function Str(r: SafraAnual): string {
    r.produto + " em " + r.uf + " - Safra " + IntToString(r.ano)
  }

  /** The string form starts with the product and the state, and its last characters are the
      crop year, which reads back as `ano`. */
  lemma StrShowsRecord(r: SafraAnual)
    ensures var s := Str(r); var y := IntToString(r.ano);
            |s| >= |r.produto| + 4 + |r.uf| + |y|
            && s[..|r.produto| + 4 + |r.uf|] == r.produto + " em " + r.uf
            && ParseInt(s[|s| - |y|..]) == Some(r.ano)
  {
    var s := Str(r);
    var y := IntToString(r.ano);
    assert s[|s| - |y|..] == y;
    assert s[..|r.produto| + 4 + |r.uf|] == r.produto + " em " + r.uf;
    IntToStringRoundTrip(r.ano);
  }

  /** The distinct crop years in a table, as `values_list('ano', flat=True).distinct()` sees
      them. */
  function AnosDeSafra(t: SafraTable): set<int> {
    set k | k in t :: k.ano
  }

  /** A registered ground station (`EstacaoMeteorologica`), stored under its `codigo`. */
  datatype Estacao = Estacao(
    nome: string,
    latitude: real,
    longitude: real,
    altitude: real,
    dataInicioOperacao: Date,
    uf: string)

  /** A satellite point (`Localidade`), stored under its `nome`. */
  datatype Coordenadas = Coordenadas(latitude: real, longitude: real)

  /** Whose observation a daily record is: a ground station's (by `codigo`) or a locality's
      (by `nome`), never both. */
  datatype Owner = Station(codigo: string) | Place(nome: string)

  /** The natural key of a `DadoMeteorologicoDiario` row: its owner and its date. */
  datatype DadoKey = DadoKey(owner: Owner, data: Date)

  /** The four nullable measures of a daily observation. */
  datatype Dado = Dado(
    precipitacaoMm: Option<real>,
    temperaturaMaximaC: Option<real>,
    temperaturaMinimaC: Option<real>,
    umidadeMediaPorc: Option<real>)
}
