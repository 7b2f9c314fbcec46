/** The `importar_dados_nasa` management command: seed the five Mato Grosso localities, then
    fetch the NASA POWER daily series of every stored locality for every crop year and store
    the days whose three values are all present. */
module ImportarNasa {
  import opened Wrappers
  import opened Calendar
  import opened Ordering
  import opened Sequences
  import opened Models
  import opened Http
  import opened Parsing
  import opened Store

  /** One entry of `LOCALIDADES_MT`. */
  datatype Semente = Semente(nome: string, coordenadas: Coordenadas)

  /** `LOCALIDADES_MT`, in the order of the dictionary literal. */
  const LocalidadesMT: seq<Semente> := [
    Semente("Cuiabá", Coordenadas(-15.59, -56.09)),
    Semente("Rondonópolis", Coordenadas(-16.47, -54.63)),
    Semente("Sinop", Coordenadas(-11.86, -55.50)),
    Semente("Sorriso", Coordenadas(-12.54, -55.71)),
    Semente("Primavera do Leste", Coordenadas(-15.56, -54.29))
  ]

  function Nomes(ss: seq<Semente>): (ns: seq<string>)
    ensures |ns| == |ss| && forall i :: 0 <= i < |ss| ==> ns[i] == ss[i].nome
  {
    seq(|ss|, i requires 0 <= i < |ss| => ss[i].nome)
  }

  /** The five seeded names are different from one another. */
  lemma LocalidadesDistintas()
    ensures |LocalidadesMT| == 5 && Distinct(Nomes(LocalidadesMT))
  {
    var ns := Nomes(LocalidadesMT);
    assert ns[0][0] == 'C' && ns[1][0] == 'R' && ns[2][1] == 'i' && ns[3][1] == 'o' && ns[4][0] == 'P';
    assert ns[2][0] == 'S' && ns[3][0] == 'S';
  }

  /** The locality table after upserting the seeds `ss` in order, by `nome`. */
  function Semeadas(m: map<string, Coordenadas>, ss: seq<Semente>): map<string, Coordenadas> {
    if ss == [] then m
    else Semeadas(m, ss[..|ss| - 1])[ss[|ss| - 1].nome := ss[|ss| - 1].coordenadas]
  }

  /** Seeding adds exactly the seeded names to the table's keys. */
  lemma {:induction false} SemeadasChaves(m: map<string, Coordenadas>, ss: seq<Semente>)
    ensures forall n :: n in Semeadas(m, ss) <==> n in m || n in Nomes(ss)
  {
    if ss != [] {
      var k := |ss| - 1;
      SemeadasChaves(m, ss[..k]);
      assert Nomes(ss) == Nomes(ss[..k]) + [ss[k].nome];
    }
  }

  /** Seeding distinct names: each seeded name holds its own coordinates, and every other
      locality keeps its record. */
  lemma {:induction false} SemeadasValores(m: map<string, Coordenadas>, ss: seq<Semente>)
    requires Distinct(Nomes(ss))
    ensures forall i :: 0 <= i < |ss| ==> ss[i].nome in Semeadas(m, ss) && Semeadas(m, ss)[ss[i].nome] == ss[i].coordenadas
    ensures forall n :: n in m && n !in Nomes(ss) ==> n in Semeadas(m, ss) && Semeadas(m, ss)[n] == m[n]
  {
    if ss != [] {
      var k := |ss| - 1;
      var pre := ss[..k];
      assert Nomes(ss) == Nomes(pre) + [ss[k].nome];
      assert Distinct(Nomes(pre));
      SemeadasValores(m, pre);
      forall i | 0 <= i < k
        ensures ss[i].nome != ss[k].nome
      {
        assert Nomes(ss)[i] == ss[i].nome && Nomes(ss)[k] == ss[k].nome;
      }
      forall i | 0 <= i < k
        ensures pre[i] == ss[i]
      {
      }
    }
  }

  /** `cadastrar_localidades`: the seeds are upserted by `nome`, in one transaction; no step of
      it can fail, so the transaction always commits. */
  method CadastrarLocalidades(db: Database)
    modifies db`localidades
    ensures db.localidades == Semeadas(old(db.localidades), LocalidadesMT)
  {
    ghost var m0 := db.localidades;
    var i := 0;
    while i < |LocalidadesMT|
      invariant 0 <= i <= |LocalidadesMT|
      invariant db.localidades == Semeadas(m0, LocalidadesMT[..i])
    {
      assert LocalidadesMT[..i + 1][..i] == LocalidadesMT[..i];
      db.UpsertLocalidade(LocalidadesMT[i].nome, LocalidadesMT[i].coordenadas);
      i := i + 1;
    }
    assert LocalidadesMT[..i] == LocalidadesMT;
  }

  /** One daily-series request; the point is given by its coordinates only. */
  datatype NasaRequest = NasaRequest(latitude: real, longitude: real, janela: Window)

  /** `properties.parameter` of a decoded response: the `T2M_MAX` series as the (date text,
      value) pairs its dictionary iterates over, and the `T2M_MIN` and `PRECTOTCORR` series as
      dictionaries. The fetch result is `None` where the body lacks one of these keys. */
  datatype NasaParametros = NasaParametros(
    t2mMax: seq<(string, real)>,
    t2mMin: map<string, real>,
    prectotcorr: map<string, real>)

  /** The value the API uses for a missing measurement. */
  const Sentinela: real := -999.0

  /** `series.get(date, -999)`. */
  function ValorOu(serie: map<string, real>, data: string): real {
    if data in serie then serie[data] else Sentinela
  }

  /** The three values of a day are all present: none is the sentinel, and a date missing
      from the minimum or the precipitation series counts as the sentinel. */
  predicate Completo(ps: NasaParametros, item: (string, real)) {
    item.1 != Sentinela && ValorOu(ps.t2mMin, item.0) != Sentinela && ValorOu(ps.prectotcorr, item.0) != Sentinela
  }

  /** Every date of the series passes `strptime(date, '%Y%m%d')`. */
  predicate DatasValidas(itens: seq<(string, real)>, p: Parsers) {
    forall it :: it in itens ==> p.compactDate(it.0).Some?
  }

  /** The upsert of one day: keyed by the locality and the date, setting the three values. */
  function EscritaDe(nome: string, ps: NasaParametros, item: (string, real), p: Parsers): Write
    requires p.compactDate(item.0).Some?
  {
    Climate(DadoKey(Place(nome), p.compactDate(item.0).value),
            item.1, ValorOu(ps.t2mMin, item.0), ValorOu(ps.prectotcorr, item.0))
  }

  /** A write none of whose three values is the sentinel. */
  predicate SemSentinela(w: Write) {
    w.Climate? && w.temperaturaMaxima != Sentinela && w.temperaturaMinima != Sentinela && w.precipitacao != Sentinela
  }

  /** The writes of the days `itens`, in order, skipping the incomplete ones. */
  function Escritas(nome: string, ps: NasaParametros, itens: seq<(string, real)>, p: Parsers): seq<Write>
    requires DatasValidas(itens, p)
  {
    if itens == [] then []
    else
      var n := |itens| - 1;
      assert forall it :: it in itens[..n] ==> it in itens;
      Escritas(nome, ps, itens[..n], p)
        + (if Completo(ps, itens[n]) then [EscritaDe(nome, ps, itens[n], p)] else [])
  }

  /** The writes are exactly the complete days of the `T2M_MAX` series, each as its upsert:
      nothing else is written. */
  lemma {:induction false} EscritasSpec(nome: string, ps: NasaParametros, itens: seq<(string, real)>, p: Parsers)
    requires DatasValidas(itens, p)
    ensures forall w :: w in Escritas(nome, ps, itens, p) <==>
              exists it :: it in itens && Completo(ps, it) && w == EscritaDe(nome, ps, it, p)
  {
    if itens != [] {
      var n := |itens| - 1;
      var pre := itens[..n];
      assert forall it :: it in pre ==> it in itens;
      EscritasSpec(nome, ps, pre, p);
      assert itens == pre + [itens[n]];
      forall w | w in Escritas(nome, ps, itens, p)
        ensures exists it :: it in itens && Completo(ps, it) && w == EscritaDe(nome, ps, it, p)
      {
        if w !in Escritas(nome, ps, pre, p) {
          assert Completo(ps, itens[n]) && w == EscritaDe(nome, ps, itens[n], p);
        }
      }
      forall w | exists it :: it in itens && Completo(ps, it) && w == EscritaDe(nome, ps, it, p)
        ensures w in Escritas(nome, ps, itens, p)
      {
        var it :| it in itens && Completo(ps, it) && w == EscritaDe(nome, ps, it, p);
        if it != itens[n] {
          assert it in pre;
        }
      }
    }
  }

  /** The sentinel rule: a day of the `T2M_MAX` series is written exactly when its maximum,
      its minimum and its precipitation all differ from `-999`. */
  lemma RegraDaTripla(nome: string, ps: NasaParametros, itens: seq<(string, real)>, p: Parsers, it: (string, real))
    requires DatasValidas(itens, p) && it in itens
    ensures EscritaDe(nome, ps, it, p) in Escritas(nome, ps, itens, p) <==> Completo(ps, it)
  {
    EscritasSpec(nome, ps, itens, p);
    var w := EscritaDe(nome, ps, it, p);
    if w in Escritas(nome, ps, itens, p) {
      var it2 :| it2 in itens && Completo(ps, it2) && w == EscritaDe(nome, ps, it2, p);
      assert SemSentinela(EscritaDe(nome, ps, it2, p));
    }
  }

  /** Every write of a locality-year is an observation of that locality. */
  lemma {:induction false} EscritasOwner(nome: string, ps: NasaParametros, itens: seq<(string, real)>, p: Parsers)
    requires DatasValidas(itens, p)
    ensures forall i :: 0 <= i < |Escritas(nome, ps, itens, p)| ==> Escritas(nome, ps, itens, p)[i].key.owner == Place(nome)
  {
    if itens != [] {
      var n := |itens| - 1;
      assert forall it :: it in itens[..n] ==> it in itens;
      EscritasOwner(nome, ps, itens[..n], p);
    }
  }

  /** What one fetched locality-year writes. A failed fetch or a body without the three
      series writes nothing; a date that `strptime` rejects raises inside the transaction, which
      rolls the whole locality-year back. */
  function DoAno(nome: string, resp: Response<Option<NasaParametros>>, p: Parsers): seq<Write> {
    if resp.Success? && resp.value.Some? && DatasValidas(resp.value.value.t2mMax, p)
    then Escritas(nome, resp.value.value, resp.value.value.t2mMax, p)
    else []
  }

  /** The whole-year request of one locality for one crop year. */
  function Pedido(c: Coordenadas, ano: int): NasaRequest {
    NasaRequest(c.latitude, c.longitude, AnoInteiro(ano))
  }

  /** The requests for one locality: one whole-year request per crop year, with no filter. */
  function PedidosLocalidade(c: Coordenadas, anos: seq<int>): (rs: seq<NasaRequest>)
    ensures |rs| == |anos|
    ensures forall j :: 0 <= j < |anos| ==> rs[j] == NasaRequest(c.latitude, c.longitude,
                                                      Window(Date(anos[j], 1, 1), Date(anos[j], 12, 31)))
  {
    seq(|anos|, j requires 0 <= j < |anos| => Pedido(c, anos[j]))
  }

  function DaLocalidade(nome: string, c: Coordenadas, fetch: NasaRequest -> Response<Option<NasaParametros>>,
                        p: Parsers): int -> seq<Write> {
    (ano: int) => DoAno(nome, fetch(Pedido(c, ano)), p)
  }

  /** The writes of one locality over the crop years, year after year. */
  function GravacoesLocalidade(nome: string, c: Coordenadas, anos: seq<int>,
                               fetch: NasaRequest -> Response<Option<NasaParametros>>, p: Parsers): seq<Write> {
    ConcatMap(anos, DaLocalidade(nome, c, fetch, p))
  }

  /** A year whose fetch fails, or whose series holds a date `strptime` rejects, contributes
      nothing: the other years are written as if it had not been requested. */
  lemma AnoDescartado(nome: string, c: Coordenadas, antes: seq<int>, ano: int, depois: seq<int>,
                      fetch: NasaRequest -> Response<Option<NasaParametros>>, p: Parsers)
    requires var resp := fetch(Pedido(c, ano));
             resp.Failure? || resp.value.None? || !DatasValidas(resp.value.value.t2mMax, p)
    ensures GravacoesLocalidade(nome, c, antes + [ano] + depois, fetch, p)
            == GravacoesLocalidade(nome, c, antes + depois, fetch, p)
  {
    var f := DaLocalidade(nome, c, fetch, p);
    ConcatMapAppend(antes + [ano], depois, f);
    ConcatMapSnoc(antes, ano, f);
    ConcatMapAppend(antes, depois, f);
    assert f(ano) == [];
  }

  /** Every write of a locality is an observation of that locality. */
  lemma GravacoesLocalidadeOwner(nome: string, c: Coordenadas, anos: seq<int>,
                                 fetch: NasaRequest -> Response<Option<NasaParametros>>, p: Parsers)
    ensures forall i :: 0 <= i < |GravacoesLocalidade(nome, c, anos, fetch, p)| ==>
              GravacoesLocalidade(nome, c, anos, fetch, p)[i].key.owner == Place(nome)
  {
    var ok := (w: Write) => w.key.owner == Place(nome);
    var f := DaLocalidade(nome, c, fetch, p);
    forall a, i | a in anos && 0 <= i < |f(a)|
      ensures ok(f(a)[i])
    {
      var resp := fetch(Pedido(c, a));
      if resp.Success? && resp.value.Some? && DatasValidas(resp.value.value.t2mMax, p) {
        EscritasOwner(nome, resp.value.value, resp.value.value.t2mMax, p);
      }
    }
    ConcatMapEvery(anos, f, ok);
    assert GravacoesLocalidade(nome, c, anos, fetch, p) == ConcatMap(anos, f);
  }

  /** The daily writes by owner: a stored locality gets the writes of its requests; any other
      owner gets none. */
  function BlocoLocalidade(localidades: map<string, Coordenadas>, anos: seq<int>,
                           fetch: NasaRequest -> Response<Option<NasaParametros>>, p: Parsers): Owner -> seq<Write> {
    (o: Owner) =>
      if o.Place? && o.nome in localidades
      then GravacoesLocalidade(o.nome, localidades[o.nome], anos, fetch, p)
      else []
  }

  predicate LocalidadesRegistradas(ordem: seq<Owner>, localidades: map<string, Coordenadas>) {
    forall i :: 0 <= i < |ordem| ==> ordem[i].Place? && ordem[i].nome in localidades
  }

  /** The requests of the localities in `ordem`, locality after locality. */
  function PedidosOrdem(ordem: seq<Owner>, localidades: map<string, Coordenadas>, anos: seq<int>): seq<NasaRequest>
    requires LocalidadesRegistradas(ordem, localidades)
  {
    if ordem == [] then []
    else
      var n := |ordem| - 1;
      PedidosOrdem(ordem[..n], localidades, anos) + PedidosLocalidade(localidades[ordem[n].nome], anos)
  }

  /** Handling one more locality, not handled before, extends the order and its requests. */
  lemma OrdemMais(ordem: seq<Owner>, nome: string, localidades: map<string, Coordenadas>, anos: seq<int>)
    requires Distinct(ordem) && LocalidadesRegistradas(ordem, localidades)
    requires nome in localidades && Place(nome) !in ordem
    ensures var o2 := ordem + [Place(nome)];
            Distinct(o2) && LocalidadesRegistradas(o2, localidades) && o2[..|o2| - 1] == ordem
            && PedidosOrdem(o2, localidades, anos) == PedidosOrdem(ordem, localidades, anos) + PedidosLocalidade(localidades[nome], anos)
  {
    var o2 := ordem + [Place(nome)];
    assert o2[..|o2| - 1] == ordem;
  }

  /** One more day of the series: a complete day appends its upsert, any other day nothing. */
  lemma EscritasMais(nome: string, ps: NasaParametros, itens: seq<(string, real)>, i: nat, p: Parsers)
    requires i < |itens| && DatasValidas(itens[..i + 1], p)
    ensures DatasValidas(itens[..i], p)
    ensures Escritas(nome, ps, itens[..i + 1], p)
            == Escritas(nome, ps, itens[..i], p)
               + (if Completo(ps, itens[i]) then [EscritaDe(nome, ps, itens[i], p)] else [])
  {
    assert itens[..i + 1][..i] == itens[..i];
    assert itens[..i + 1][i] == itens[i];
    assert forall it :: it in itens[..i] ==> it in itens[..i + 1];
  }

  /** The transaction of one locality-year: every day of `T2M_MAX` is parsed and, when
      complete, upserted; a date that does not parse rolls back every write of the year. */
  method SalvarAno(db: Database, nome: string, ps: NasaParametros, p: Parsers)
    modifies db`dados
    ensures db.dados == ApplyWrites(old(db.dados), if DatasValidas(ps.t2mMax, p) then Escritas(nome, ps, ps.t2mMax, p) else [])
  {
    var itens := ps.t2mMax;
    var snapshot := db.dados;
    var i := 0;
    assert itens[..0] == [];
    while i < |itens|
      invariant 0 <= i <= |itens|
      invariant DatasValidas(itens[..i], p)
      invariant db.dados == ApplyWrites(snapshot, Escritas(nome, ps, itens[..i], p))
    {
      var data := p.compactDate(itens[i].0);
      if data.None? {
        db.RollbackDados(snapshot);
        assert itens[i] in itens;
        return;
      }
      assert DatasValidas(itens[..i + 1], p) by {
        assert forall it :: it in itens[..i + 1] ==> it in itens[..i] || it == itens[i];
      }
      EscritasMais(nome, ps, itens, i, p);
      var tmax := itens[i].1;
      var tmin := ValorOu(ps.t2mMin, itens[i].0);
      var prec := ValorOu(ps.prectotcorr, itens[i].0);
      if !(tmax == Sentinela || tmin == Sentinela || prec == Sentinela) {
        db.SaveDado(Climate(DadoKey(Place(nome), data.value), tmax, tmin, prec));
      } else {
        assert Escritas(nome, ps, itens[..i], p) + [] == Escritas(nome, ps, itens[..i], p);
      }
      i := i + 1;
    }
    assert itens[..i] == itens;
  }

  /** Fetches and stores one locality, year by year; a failure inside a year affects only that
      year. */
  method ImportarLocalidade(db: Database, nome: string, c: Coordenadas, anos: seq<int>,
                            fetch: NasaRequest -> Response<Option<NasaParametros>>, p: Parsers)
    returns (ghost pedidos: seq<NasaRequest>)
    modifies db`dados
    ensures pedidos == PedidosLocalidade(c, anos)
    ensures db.dados == ApplyWrites(old(db.dados), GravacoesLocalidade(nome, c, anos, fetch, p))
  {
    ghost var m0 := db.dados;
    pedidos := [];
    var i := 0;
    while i < |anos|
      invariant 0 <= i <= |anos|
      invariant pedidos == PedidosLocalidade(c, anos[..i])
      invariant db.dados == ApplyWrites(m0, GravacoesLocalidade(nome, c, anos[..i], fetch, p))
    {
      var req := Pedido(c, anos[i]);
      var resp := fetch(req);
      ghost var feitas := GravacoesLocalidade(nome, c, anos[..i], fetch, p);
      assert anos[..i + 1] == anos[..i] + [anos[i]];
      ConcatMapSnoc(anos[..i], anos[i], DaLocalidade(nome, c, fetch, p));
      if resp.Success? && resp.value.Some? {
        SalvarAno(db, nome, resp.value.value, p);
        ApplyWritesAppend(m0, feitas, DoAno(nome, resp, p));
      } else {
        assert feitas + DoAno(nome, resp, p) == feitas;
      }
      pedidos := pedidos + [req];
      i := i + 1;
    }
    assert anos[..i] == anos;
  }

  /** `importar_dados_diarios`: with no crop year nothing is fetched. Otherwise every stored
      locality, seeded or not, is handled once, in an order the query leaves open (`ordem`),
      with one request per crop year. */
  method ImportarDadosDiarios(db: Database, fetch: NasaRequest -> Response<Option<NasaParametros>>, p: Parsers)
    returns (ghost pedidos: seq<NasaRequest>, ghost ordem: seq<Owner>)
    modifies db`dados
    ensures var anos := Sorted(AnosDeSafra(db.safras));
            (anos == [] ==> pedidos == [] && ordem == [] && db.dados == old(db.dados))
            && (anos != [] ==> forall o :: o in ordem <==> o.Place? && o.nome in db.localidades)
            && Distinct(ordem) && LocalidadesRegistradas(ordem, db.localidades)
            && pedidos == PedidosOrdem(ordem, db.localidades, anos)
            && db.dados == ApplyWrites(old(db.dados), Blocks(ordem, BlocoLocalidade(db.localidades, anos, fetch, p)))
  {
    var anos := SortedList(AnosDeSafra(db.safras));
    pedidos, ordem := [], [];
    if anos == [] {
      return;
    }
    pedidos, ordem := ImportarLocalidades(db, db.localidades, anos, fetch, p);
  }

  /** The loop over the localities: each one is taken once, in an order left open, and
      imported. */
  method ImportarLocalidades(db: Database, localidades: map<string, Coordenadas>, anos: seq<int>,
                             fetch: NasaRequest -> Response<Option<NasaParametros>>, p: Parsers)
    returns (ghost pedidos: seq<NasaRequest>, ghost ordem: seq<Owner>)
    modifies db`dados
    ensures forall o :: o in ordem <==> o.Place? && o.nome in localidades
    ensures Distinct(ordem) && LocalidadesRegistradas(ordem, localidades)
    ensures pedidos == PedidosOrdem(ordem, localidades, anos)
    ensures db.dados == ApplyWrites(old(db.dados), Blocks(ordem, BlocoLocalidade(localidades, anos, fetch, p)))
  {
    ghost var block := BlocoLocalidade(localidades, anos, fetch, p);
    pedidos, ordem := [], [];
    ghost var m0 := db.dados;
    var resto := localidades.Keys;
    while resto != {}
      invariant resto <= localidades.Keys
      invariant Distinct(ordem) && LocalidadesRegistradas(ordem, localidades)
      invariant forall o :: o in ordem <==> o.Place? && o.nome in localidades && o.nome !in resto
      invariant pedidos == PedidosOrdem(ordem, localidades, anos)
      invariant db.dados == ApplyWrites(m0, Blocks(ordem, block))
      decreases |resto|
    {
      if forall n :: n !in resto {
        assert false;
      }
      var nome :| nome in resto;
      assert Place(nome) !in ordem;
      ghost var antes := ordem;
      ghost var feitos := ImportarLocalidade(db, nome, localidades[nome], anos, fetch, p);
      ApplyWritesAppend(m0, Blocks(antes, block), block(Place(nome)));
      OrdemMais(antes, nome, localidades, anos);
      pedidos := pedidos + feitos;
      ordem := ordem + [Place(nome)];
      resto := resto - {nome};
    }
  }

  /** The order of the localities does not matter: any two orders that list the same
      localities, each once, leave the same observation table. */
  lemma DiariosIndependemDaOrdem(m: DadoTable, localidades: map<string, Coordenadas>, anos: seq<int>,
                                 fetch: NasaRequest -> Response<Option<NasaParametros>>, p: Parsers,
                                 o1: seq<Owner>, o2: seq<Owner>)
    requires Distinct(o1) && Distinct(o2)
    requires forall o :: o in o1 <==> o in o2
    ensures var block := BlocoLocalidade(localidades, anos, fetch, p);
            ApplyWrites(m, Blocks(o1, block)) == ApplyWrites(m, Blocks(o2, block))
  {
    var block := BlocoLocalidade(localidades, anos, fetch, p);
    forall o, i | 0 <= i < |block(o)|
      ensures block(o)[i].key.owner == o
    {
      GravacoesLocalidadeOwner(o.nome, localidades[o.nome], anos, fetch, p);
    }
    OrderIrrelevant(m, o1, o2, block);
  }

  /** `Command.handle`: seed the localities, then import the daily series. */
  method Handle(db: Database, fetch: NasaRequest -> Response<Option<NasaParametros>>, p: Parsers)
    returns (ghost pedidos: seq<NasaRequest>, ghost ordem: seq<Owner>)
    modifies db`localidades, db`dados
    ensures db.localidades == Semeadas(old(db.localidades), LocalidadesMT)
    ensures var anos := Sorted(AnosDeSafra(db.safras));
            (anos == [] ==> pedidos == [] && db.dados == old(db.dados))
            && (anos != [] ==> forall o :: o in ordem <==> o.Place? && o.nome in db.localidades)
            && Distinct(ordem) && LocalidadesRegistradas(ordem, db.localidades)
            && pedidos == PedidosOrdem(ordem, db.localidades, anos)
            && db.dados == ApplyWrites(old(db.dados), Blocks(ordem, BlocoLocalidade(db.localidades, anos, fetch, p)))
  {
    CadastrarLocalidades(db);
    pedidos, ordem := ImportarDadosDiarios(db, fetch, p);
  }
}
