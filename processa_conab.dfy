/** The Conab transform: the historical grain series, one row per season, state and product,
    becomes the Mato Grosso rows the crop table is loaded from. The same steps appear in the
    standalone script, in the import command and in the Celery task; all three are this
    function. */
module ProcessaConab {
  import opened Wrappers
  import opened Text
  import opened Ordering
  import opened Sequences

  /** A row of the Conab file, with its columns under their original names. The three numeric
      columns may be empty. */
  datatype ConabRow = ConabRow(
    anoAgricola: string,
    dscSafraPrevisao: string,
    uf: string,
    produto: string,
    areaPlantadaMilHa: Option<real>,
    producaoMilT: Option<real>,
    produtividadeMilHaMilT: Option<real>)

  /** The same row once its columns carry their new names. Area and production are still in
      thousands here; productivity is already in kg/ha and is only renamed. */
  datatype RenamedRow = RenamedRow(
    anoSafra: string,
    tipoSafra: string,
    uf: string,
    produto: string,
    areaPlantadaHa: Option<real>,
    producaoToneladas: Option<real>,
    produtividadeKgHa: Option<real>)

  /** The six columns that reach the load, in their final order. */
  datatype CropRow = CropRow(
    ano: int,
    uf: string,
    produto: string,
    areaPlantadaHa: Option<real>,
    producaoToneladas: Option<real>,
    produtividadeKgHa: Option<real>)

  /** The renaming of the columns, source name to new name. */
  const ColunasRenomeadas: map<string, string> := map[
    "ano_agricola" := "ano_safra",
    "dsc_safra_previsao" := "tipo_safra",
    "uf" := "uf",
    "produto" := "produto",
    "area_plantada_mil_ha" := "area_plantada_ha",
    "producao_mil_t" := "producao_toneladas",
    "produtividade_mil_ha_mil_t" := "produtividade_kg_ha"]

  /** The final columns, in order. */
  const ColunasFinais: seq<string> :=
    ["ano", "uf", "produto", "area_plantada_ha", "producao_toneladas", "produtividade_kg_ha"]

  /** No two source columns are renamed to the same name, so the rename loses no column; and
      every final column is either a renamed column or the derived `ano`. */
  lemma ColunasConsistentes()
    ensures forall a, b :: a in ColunasRenomeadas && b in ColunasRenomeadas && a != b
              ==> ColunasRenomeadas[a] != ColunasRenomeadas[b]
    ensures forall c :: c in ColunasFinais ==> c == "ano" || c in ColunasRenomeadas.Values
    ensures "ano" !in ColunasRenomeadas.Values
    ensures |ColunasFinais| == 6 && Distinct(ColunasFinais)
  {
    assert ColunasRenomeadas["uf"] == "uf";
    assert ColunasRenomeadas["produto"] == "produto";
    assert ColunasRenomeadas["area_plantada_mil_ha"] == "area_plantada_ha";
    assert ColunasRenomeadas["producao_mil_t"] == "producao_toneladas";
    assert ColunasRenomeadas["produtividade_mil_ha_mil_t"] == "produtividade_kg_ha";
  }

  /** `df.rename(columns=...)`. */
  function Rename(r: ConabRow): RenamedRow {
    RenamedRow(r.anoAgricola, r.dscSafraPrevisao, r.uf, r.produto,
               r.areaPlantadaMilHa, r.producaoMilT, r.produtividadeMilHaMilT)
  }

  function Unrename(n: RenamedRow): ConabRow {
    ConabRow(n.anoSafra, n.tipoSafra, n.uf, n.produto,
             n.areaPlantadaHa, n.producaoToneladas, n.produtividadeKgHa)
  }

  /** Renaming only changes names: it can be undone, and every renamed row comes from one raw
      row. */
  lemma RenameBijective(r: ConabRow, n: RenamedRow)
    ensures Unrename(Rename(r)) == r
    ensures Rename(Unrename(n)) == n
    ensures Rename(r) == n <==> r == Unrename(n)
  {
  }

  /** An empty cell, or a filled one holding no negative amount. */
  predicate NaoNegativo(x: Option<real>) {
    x.None? || x.value >= 0.0
  }

  /** A value in thousands converted to units; an empty cell stays empty, and a non-negative
      amount stays non-negative. */
  function Escala(x: Option<real>): (y: Option<real>)
    ensures y.Some? <==> x.Some?
    ensures NaoNegativo(x) ==> NaoNegativo(y)
  {
    if x.Some? then Some(x.value * 1000.0) else None
  }

  /** Scaling can be undone by dividing by a thousand, so no two values scale to the same one. */
  lemma EscalaInjective(x: Option<real>, z: Option<real>)
    ensures Escala(x).Some? ==> Escala(x).value / 1000.0 == x.value
    ensures Escala(x) == Escala(z) ==> x == z
  {
  }

  /** The area and production columns multiplied by 1000; the rest untouched. */
  function Ajusta(n: RenamedRow): RenamedRow {
    n.(areaPlantadaHa := Escala(n.areaPlantadaHa), producaoToneladas := Escala(n.producaoToneladas))
  }

  /** The range of the 64-bit integers `astype(int)` converts to. */
  const Int64Min: int := -0x8000_0000_0000_0000
  const Int64Max: int := 0x7FFF_FFFF_FFFF_FFFF

  predicate CabeEmInt64(n: int) {
    Int64Min <= n <= Int64Max
  }

  /** `ano_safra.str.split('/').str[0].astype(int)` for one cell: `None` where the text is not
      an integer literal (`ValueError`) or where its value does not fit a 64-bit integer
      (`OverflowError`). */
  function AnoDaSafra(s: string): (r: Option<int>)
    ensures r.Some? <==> ParseInt(BeforeFirst(s, '/')).Some? && CabeEmInt64(ParseInt(BeforeFirst(s, '/')).value)
    ensures r.Some? ==> r == ParseInt(BeforeFirst(s, '/'))
  {
    var n := ParseInt(BeforeFirst(s, '/'));
    if n.Some? && CabeEmInt64(n.value) then n else None
  }

  /** A season written as a year, a `/` and anything after it starts in that year when the year
      fits 64 bits; a wider year makes the cast raise. */
  lemma AnoDaSafraOf(y: int, rest: string)
    ensures AnoDaSafra(IntToString(y) + "/" + rest) == if CabeEmInt64(y) then Some(y) else None
  {
    var p := IntToString(y);
    assert '/' !in p by {
      var d := NatToString(if y < 0 then -y else y);
      assert AllDigits(d);
      if y < 0 {
        assert p == "-" + d;
      }
    }
    BeforeFirstOf(p, '/', rest);
    IntToStringRoundTrip(y);
  }

  /** The usual Conab season label. */
  lemma AnoDaSafraExemplo()
    ensures AnoDaSafra("2020/2021") == Some(2020)
  {
    assert "2020" + ['/'] + "2021" == "2020/2021";
    BeforeFirstOf("2020", '/', "2021");
    Ano2020();
  }

  /** `int("2020") == 2020`, digit by digit. */
  lemma Ano2020()
    ensures ParseInt("2020") == Some(2020)
  {
    StripTrimmed("2020");
    assert "2020"[..3] == "202" && "202"[..2] == "20" && "20"[..1] == "2" && "2"[..0] == "";
    assert DigitsValue("2") == 2;
    assert DigitsValue("20") == 20;
    assert DigitsValue("202") == 202;
    assert DigitsValue("2020") == 2020;
  }

  /** A season without a leading integer makes the conversion raise, and so does one whose
      leading integer is beyond the 64-bit range. */
  lemma AnoDaSafraInvalida()
    ensures AnoDaSafra("/2021") == None
    ensures AnoDaSafra("") == None
    ensures AnoDaSafra(IntToString(Int64Max + 1) + "/2021") == None
  {
    AnoDaSafraOf(Int64Max + 1, "2021");
    assert IntToString(Int64Max + 1) + "/" + "2021" == IntToString(Int64Max + 1) + "/2021";
    assert BeforeFirst("/2021", '/') == "";
    assert Strip("") == "";
  }

  predicate AnoValido(r: ConabRow) {
    AnoDaSafra(r.anoAgricola).Some?
  }

  predicate DoMatoGrosso(n: RenamedRow) {
    n.uf == "MT"
  }

  /** Why the whole-column year conversion raised: the first row whose season does not start
      with an integer, and its text. */
  datatype TransformError = AnoSafraInvalido(linha: nat, valor: string)

  /** The `ano` column: the conversion runs on every row, before the state filter, so one bad
      season anywhere in the file makes it raise. */
  function Anos(rows: seq<ConabRow>): (r: Result<seq<int>, TransformError>)
    ensures r.Success? <==> forall i :: 0 <= i < |rows| ==> AnoValido(rows[i])
    ensures r.Success? ==> |r.value| == |rows|
    ensures r.Success? ==> forall i :: 0 <= i < |rows| ==> Some(r.value[i]) == AnoDaSafra(rows[i].anoAgricola)
    ensures r.Failure? ==> var k := r.error.linha;
              k < |rows| && !AnoValido(rows[k]) && r.error.valor == rows[k].anoAgricola
              && forall i :: 0 <= i < k ==> AnoValido(rows[i])
  {
    var k := FirstFailing(rows, AnoValido);
    if k < |rows| then Failure(AnoSafraInvalido(k, rows[k].anoAgricola))
    else Success(seq(|rows|, i requires 0 <= i < |rows| && AnoValido(rows[i]) =>
                              AnoDaSafra(rows[i].anoAgricola).value))
  }

  /** The projection onto the final columns, once `ano` is known. */
  function Projeta(ano: int, n: RenamedRow): CropRow {
    CropRow(ano, n.uf, n.produto, n.areaPlantadaHa, n.producaoToneladas, n.produtividadeKgHa)
  }

  /** How an output row relates to the raw row it comes from: the year is the integer before
      the first `/` of the season, the state is Mato Grosso, the product is copied, area and
      production are a thousand times the raw values and productivity is copied. */
  predicate Corresponde(raw: ConabRow, out: CropRow) {
    AnoDaSafra(raw.anoAgricola) == Some(out.ano)
    && raw.uf == "MT" && out.uf == "MT"
    && out.produto == raw.produto
    && out.areaPlantadaHa == Escala(raw.areaPlantadaMilHa)
    && out.producaoToneladas == Escala(raw.producaoMilT)
    && out.produtividadeKgHa == raw.produtividadeMilHaMilT
  }

  predicate RawDoMatoGrosso(r: ConabRow) {
    r.uf == "MT"
  }

  /** Two ways of masking the same rows keep the same positions. */
  lemma KeptSame<A, B>(s: seq<A>, t: seq<B>, p: A -> bool, q: B -> bool)
    requires |s| == |t|
    requires forall i :: 0 <= i < |s| ==> p(s[i]) == q(t[i])
    ensures Kept(s, p) == Kept(t, q)
  {
    var a := Kept(s, p);
    var b := Kept(t, q);
    assert forall x :: x in a <==> x in b;
    SortedUnique(a, b);
  }

  /** The whole transform: rename, scale, derive `ano`, keep Mato Grosso, project.
      It fails exactly when some row's season has no leading integer, naming the first such
      row. Otherwise the output lists, in file order, one row for each Mato Grosso row of the
      input, related to it as `Corresponde` says. */
  function Transform(rows: seq<ConabRow>): (r: Result<seq<CropRow>, TransformError>)
    ensures r.Failure? <==> exists i :: 0 <= i < |rows| && !AnoValido(rows[i])
    ensures r.Failure? ==> r == Failure(AnoSafraInvalido(FirstFailing(rows, AnoValido),
                                                         rows[FirstFailing(rows, AnoValido)].anoAgricola))
    ensures r.Success? ==>
              var idx := Kept(rows, RawDoMatoGrosso);
              |r.value| == |idx|
              && forall j :: 0 <= j < |idx| ==> Corresponde(rows[idx[j]], r.value[j])
  {
    var anos := Anos(rows);
    if anos.Failure? then
      FirstFailingAll(rows, AnoValido);
      Failure(anos.error)
    else
      Success(Projetados(rows, anos.value))
  }

  /** Rename and scale every row, keep the Mato Grosso ones, and project them with their year:
      one output row per Mato Grosso input row, in order. */
  function Projetados(rows: seq<ConabRow>, anos: seq<int>): (r: seq<CropRow>)
    requires |anos| == |rows|
    requires forall i :: 0 <= i < |rows| ==> Some(anos[i]) == AnoDaSafra(rows[i].anoAgricola)
    ensures |r| == |Kept(rows, RawDoMatoGrosso)|
    ensures forall j :: 0 <= j < |r| ==> Corresponde(rows[Kept(rows, RawDoMatoGrosso)[j]], r[j])
  {
    var renamed := seq(|rows|, i requires 0 <= i < |rows| => Ajusta(Rename(rows[i])));
    KeptSame(renamed, rows, DoMatoGrosso, RawDoMatoGrosso);
    var idx := Kept(renamed, DoMatoGrosso);
    assert forall j :: 0 <= j < |idx| ==> idx[j] in idx;
    seq(|idx|, j requires 0 <= j < |idx| => Projeta(anos[idx[j]], renamed[idx[j]]))
  }

  /** Every output row is a Mato Grosso row, and every Mato Grosso row of the input is in the
      output: its projection appears there. */
  lemma TransformKeepsExactlyMT(rows: seq<ConabRow>)
    requires Transform(rows).Success?
    ensures forall out :: out in Transform(rows).value ==> out.uf == "MT"
    ensures forall i :: 0 <= i < |rows| && rows[i].uf == "MT" ==>
              exists out :: out in Transform(rows).value && Corresponde(rows[i], out)
  {
    var t := Transform(rows).value;
    var idx := Kept(rows, RawDoMatoGrosso);
    forall i | 0 <= i < |rows| && rows[i].uf == "MT"
      ensures exists out :: out in t && Corresponde(rows[i], out)
    {
      assert i in idx;
      var j :| 0 <= j < |idx| && idx[j] == i;
      assert t[j] in t;
    }
  }

  /** The three measures of a raw row hold no negative amount. */
  predicate RawNaoNegativa(r: ConabRow) {
    NaoNegativo(r.areaPlantadaMilHa) && NaoNegativo(r.producaoMilT)
    && NaoNegativo(r.produtividadeMilHaMilT)
  }

  /** The three measures of an output row hold no negative amount. */
  predicate CropNaoNegativa(c: CropRow) {
    NaoNegativo(c.areaPlantadaHa) && NaoNegativo(c.producaoToneladas)
    && NaoNegativo(c.produtividadeKgHa)
  }

  /** The transform never makes a measure negative: when no Mato Grosso row of the input has a
      negative area, production or productivity, neither has any row of the output. It does not
      reject negative amounts either; a negative input cell comes out scaled. */
  lemma TransformNaoNegativo(rows: seq<ConabRow>)
    requires Transform(rows).Success?
    requires forall i :: 0 <= i < |rows| && RawDoMatoGrosso(rows[i]) ==> RawNaoNegativa(rows[i])
    ensures forall out :: out in Transform(rows).value ==> CropNaoNegativa(out)
  {
    var t := Transform(rows).value;
    var idx := Kept(rows, RawDoMatoGrosso);
    forall out | out in t ensures CropNaoNegativa(out) {
      var j :| 0 <= j < |t| && t[j] == out;
      assert idx[j] in idx;
      assert Corresponde(rows[idx[j]], out);
    }
  }
}
