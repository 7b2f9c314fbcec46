/** `get_chart_data` of core/views.py: the yearly crop production (optionally filtered by
    product) joined with the yearly precipitation of all daily observations, on the years both
    have. The two aggregate queries and the dictionaries built from them are functions of the
    stored tables. */
module Views {
  import opened Wrappers
  import opened Text
  import opened Ordering
  import opened Models
  import opened Store

  /** Adding two nullable values as SQL's `SUM` does: NULLs are skipped and a sum of no
      present value is NULL. */
  function Mais(a: Option<real>, b: Option<real>): (r: Option<real>)
    ensures r.None? <==> a.None? && b.None?
    ensures a.Some? && b.Some? ==> r == Some(a.value + b.value)
    ensures a.None? ==> r == b
    ensures b.None? ==> r == a
  {
    if a.None? then b else if b.None? then a else Some(a.value + b.value)
  }

  /** Some element of a non-empty set. */
  ghost function Escolhe<K>(s: set<K>): (k: K)
    requires s != {}
    ensures k in s
  {
    assert exists x :: x in s by {
      if forall x :: x !in s {
        assert false;
      }
    }
    var x :| x in s; x
  }

  /** `Sum` of the nullable values `v(k)` over the rows `s`. */
  ghost function Soma<K>(s: set<K>, v: K -> Option<real>): Option<real>
    decreases |s|
  {
    if s == {} then None
    else
      var k := Escolhe(s);
      Mais(Soma(s - {k}, v), v(k))
  }

  /** The sum does not depend on the order the rows are taken in: any row can be taken last. */
  lemma {:induction false} SomaSem<K>(s: set<K>, v: K -> Option<real>, k: K)
    requires k in s
    ensures Soma(s, v) == Mais(Soma(s - {k}, v), v(k))
    decreases |s|
  {
    var c := Escolhe(s);
    if c != k {
      SomaSem(s - {c}, v, k);
      SomaSem(s - {k}, v, c);
      assert s - {c} - {k} == s - {k} - {c};
    }
  }

  /** The sum is NULL exactly when every summed value is NULL (in particular over no row),
      and a NULL never counts as zero. */
  lemma {:induction false} SomaNula<K>(s: set<K>, v: K -> Option<real>)
    ensures Soma(s, v).None? <==> forall k :: k in s ==> v(k).None?
    decreases |s|
  {
    if s != {} {
      var c := Escolhe(s);
      SomaNula(s - {c}, v);
    }
  }

  /** Summing two disjoint sets of rows is adding their sums. */
  lemma {:induction false} SomaUniao<K>(a: set<K>, b: set<K>, v: K -> Option<real>)
    requires a !! b
    ensures Soma(a + b, v) == Mais(Soma(a, v), Soma(b, v))
    decreases |b|
  {
    if b == {} {
      assert a + b == a;
    } else {
      var c := Escolhe(b);
      SomaSem(a + b, v, c);
      assert (a + b) - {c} == a + (b - {c});
      SomaUniao(a, b - {c}, v);
      SomaSem(b, v, c);
    }
  }

  /** `request.GET.get('produto', 'soja')`. */
  function Filtro(produto: Option<string>): string {
    produto.GetOr("soja")
  }

  /** `filter(produto__icontains=f)` when `f` is not empty; every row otherwise. */
  predicate Selecionada(k: SafraKey, f: string) {
    f == "" || IContains(k.produto, f)
  }

  /** The selected crop rows of one year. */
  function LinhasDoAno(t: SafraTable, f: string, ano: int): set<SafraKey> {
    set k | k in t && Selecionada(k, f) && k.ano == ano
  }

  function ProducaoDe(t: SafraTable): SafraKey -> Option<real> {
    (k: SafraKey) => if k in t then t[k].producaoToneladas else None
  }

  /** The keys of `producao_dict`: the years of the selected rows. */
  function AnosProducao(t: SafraTable, f: string): set<int> {
    set k | k in t && Selecionada(k, f) :: k.ano
  }

  /** `total_producao` of a year. */
  ghost function ProducaoDoAno(t: SafraTable, f: string, ano: int): Option<real> {
    Soma(LinhasDoAno(t, f, ano), ProducaoDe(t))
  }

  /** `producao_dict`: `values('ano').annotate(Sum('producao_toneladas'))`. */
  ghost function ProducaoPorAno(t: SafraTable, f: string): map<int, Option<real>> {
    map a | a in AnosProducao(t, f) :: ProducaoDoAno(t, f, a)
  }

  /** The observations (of every station and every locality) of one calendar year. */
  function DiasDoAno(d: DadoTable, ano: int): set<DadoKey> {
    set k | k in d && k.data.year == ano
  }

  function PrecipitacaoDe(d: DadoTable): DadoKey -> Option<real> {
    (k: DadoKey) => if k in d then d[k].precipitacaoMm else None
  }

  /** The keys of `precipitacao_dict`: the years of all observations. */
  function AnosPrecipitacao(d: DadoTable): set<int> {
    set k | k in d :: k.data.year
  }

  /** `total_precipitacao` of a year. */
  ghost function PrecipitacaoDoAno(d: DadoTable, ano: int): Option<real> {
    Soma(DiasDoAno(d, ano), PrecipitacaoDe(d))
  }

  /** `precipitacao_dict`: `values('data__year').annotate(Sum('precipitacao_mm'))`. */
  ghost function PrecipitacaoPorAno(d: DadoTable): map<int, Option<real>> {
    map a | a in AnosPrecipitacao(d) :: PrecipitacaoDoAno(d, a)
  }

  /** The values of `m` at the years `labels`, in that order: `[m[a] for a in labels]`. */
  function Alinhado(labels: seq<int>, m: map<int, Option<real>>): (r: seq<Option<real>>)
    requires forall i :: 0 <= i < |labels| ==> labels[i] in m
    ensures |r| == |labels|
    ensures forall i :: 0 <= i < |labels| ==> r[i] == m[labels[i]]
  {
    seq(|labels|, i requires 0 <= i < |labels| => m[labels[i]])
  }

  /** The JSON body: the year axis, the production dataset's label, and the two data lists. */
  datatype ChartData = ChartData(
    labels: seq<int>,
    rotuloProducao: string,
    producao: seq<Option<real>>,
    precipitacao: seq<Option<real>>)

  /** The production dataset's label for a filter. */
  function Rotulo(f: string): string {
    "Produção de " + Capitalize(f) + " (Toneladas)"
  }

  /** `get_chart_data`. The axis is, in ascending order, every year that has both selected crop
      rows and observations; the two lists are aligned with it, entry `i` holding that year's
      production total and precipitation total. */
  ghost function GetChartData(t: SafraTable, d: DadoTable, produto: Option<string>): (r: ChartData)
    ensures StrictlyIncreasing(r.labels)
    ensures forall a :: a in r.labels <==> a in AnosProducao(t, Filtro(produto)) && a in AnosPrecipitacao(d)
    ensures |r.producao| == |r.labels| && |r.precipitacao| == |r.labels|
    ensures forall i :: 0 <= i < |r.labels| ==>
              r.producao[i] == ProducaoDoAno(t, Filtro(produto), r.labels[i])
              && r.precipitacao[i] == PrecipitacaoDoAno(d, r.labels[i])
    ensures r.rotuloProducao == Rotulo(Filtro(produto))
  {
    var f := Filtro(produto);
    var producao := ProducaoPorAno(t, f);
    var precipitacao := PrecipitacaoPorAno(d);
    assert producao.Keys == AnosProducao(t, f);
    assert precipitacao.Keys == AnosPrecipitacao(d);
    var labels := Sorted(producao.Keys * precipitacao.Keys);
    assert forall i :: 0 <= i < |labels| ==> labels[i] in labels;
    ChartData(labels, Rotulo(f), Alinhado(labels, producao), Alinhado(labels, precipitacao))
  }

  /** The axis is the only ascending list of the common years: any strictly increasing list
      holding exactly the years with both crop rows and observations is `labels`. */
  lemma LabelsCanonicos(t: SafraTable, d: DadoTable, produto: Option<string>, xs: seq<int>)
    requires StrictlyIncreasing(xs)
    requires forall a :: a in xs <==> a in AnosProducao(t, Filtro(produto)) && a in AnosPrecipitacao(d)
    ensures xs == GetChartData(t, d, produto).labels
  {
    SortedUnique(xs, GetChartData(t, d, produto).labels);
  }

  /** Without the parameter the filter is `soja`, and the label reads
      "Produção de Soja (Toneladas)". */
  lemma RotuloPadrao()
    ensures Filtro(None) == "soja"
    ensures Rotulo(Filtro(None)) == "Produção de Soja (Toneladas)"
  {
    var c := Capitalize("soja");
    assert c[0] == 'S';
    assert c[1..] == Lower("oja") == "oja";
    assert c == [c[0]] + c[1..];
  }

  /** Without the parameter the selected rows are those whose product contains "soja" in any
      case (so "Soja" and "SOJA EM GRÃO" both count), and the chart is labelled for "Soja". */
  lemma FiltroPadrao(t: SafraTable, d: DadoTable)
    ensures forall k :: k in t ==> (Selecionada(k, Filtro(None)) <==> IContains(k.produto, "soja"))
    ensures GetChartData(t, d, None).rotuloProducao == "Produção de Soja (Toneladas)"
  {
    RotuloPadrao();
  }

  /** An empty filter selects every row: each crop year of the table is on the production
      side, with the total of all its rows. */
  lemma FiltroVazio(t: SafraTable, ano: int)
    ensures AnosProducao(t, "") == AnosDeSafra(t)
    ensures ProducaoDoAno(t, "", ano) == Soma((set k: SafraKey | k in t && k.ano == ano), ProducaoDe(t))
  {
    assert LinhasDoAno(t, "", ano) == set k: SafraKey | k in t && k.ano == ano;
  }

  /** A year's production is NULL exactly when none of its selected rows has a production;
      rows with a NULL production add nothing. */
  lemma ProducaoNula(t: SafraTable, f: string, ano: int)
    ensures ProducaoDoAno(t, f, ano).None? <==>
              forall k :: k in t && Selecionada(k, f) && k.ano == ano ==> t[k].producaoToneladas.None?
  {
    SomaNula(LinhasDoAno(t, f, ano), ProducaoDe(t));
    assert forall k :: k in LinhasDoAno(t, f, ano) ==> ProducaoDe(t)(k) == t[k].producaoToneladas;
  }

  /** Lengthening the filter never adds a row: a product containing `f + g` contains `f`, so
      the rows `f + g` selects in a year are among those `f` selects. The year's production
      under `f` is then the production under `f + g` plus that of the rows only `f` selects. */
  lemma ProducaoParticiona(t: SafraTable, f: string, g: string, ano: int)
    ensures forall k :: Selecionada(k, f + g) ==> Selecionada(k, f)
    ensures LinhasDoAno(t, f + g, ano) <= LinhasDoAno(t, f, ano)
    ensures ProducaoDoAno(t, f, ano)
            == Mais(ProducaoDoAno(t, f + g, ano),
                    Soma(LinhasDoAno(t, f, ano) - LinhasDoAno(t, f + g, ano), ProducaoDe(t)))
  {
    forall k | Selecionada(k, f + g)
      ensures Selecionada(k, f)
    {
      if f != "" {
        assert f + g != "";
        IContainsPrefix(k.produto, f, g);
      }
    }
    var all := LinhasDoAno(t, f, ano);
    var a := LinhasDoAno(t, f + g, ano);
    assert a <= all;
    assert all == a + (all - a);
    SomaUniao(a, all - a, ProducaoDe(t));
  }
}
