/** The `importar_dados_inmet` management command: register the Mato Grosso ground stations
    from the INMET catalog, then fetch and store the daily observations of every registered
    station for every crop year it was already operating in. */
module ImportarInmet {
  import opened Wrappers
  import opened Text
  import opened Calendar
  import opened Ordering
  import opened Sequences
  import opened Models
  import opened Http
  import opened Parsing
  import opened Store

  /** One entry of the station catalog (`/estacoes/T`). `SG_ESTADO` is read with `.get`, so
      it may be absent; the other fields are read by key. */
  datatype CatalogEntry = CatalogEntry(
    sgEstado: Option<string>,
    cdEstacao: string,
    dcNome: string,
    vlLatitude: string,
    vlLongitude: string,
    vlAltitude: string,
    dtInicioOperacao: string)

  predicate DeMatoGrosso(e: CatalogEntry) {
    e.sgEstado == Some("MT")
  }

  /** The station record an entry is saved as, or `None` where a `float` or the `strptime`
      of the date part (the text before the first `T`) raises. */
  function EstacaoDe(e: CatalogEntry, p: Parsers): (r: Option<Estacao>)
    requires DeMatoGrosso(e)
    ensures r.Some? <==> p.float(e.vlLatitude).Some? && p.float(e.vlLongitude).Some?
                         && p.float(e.vlAltitude).Some? && p.isoDate(BeforeFirst(e.dtInicioOperacao, 'T')).Some?
    ensures r.Some? ==> r.value.uf == "MT" && r.value.nome == e.dcNome
                        && Some(r.value.latitude) == p.float(e.vlLatitude)
                        && Some(r.value.longitude) == p.float(e.vlLongitude)
                        && Some(r.value.altitude) == p.float(e.vlAltitude)
                        && Some(r.value.dataInicioOperacao) == p.isoDate(BeforeFirst(e.dtInicioOperacao, 'T'))
  {
    var lat := p.float(e.vlLatitude);
    var lon := p.float(e.vlLongitude);
    var alt := p.float(e.vlAltitude);
    var inicio := p.isoDate(BeforeFirst(e.dtInicioOperacao, 'T'));
    if lat.Some? && lon.Some? && alt.Some? && inicio.Some? then
      Some(Estacao(e.dcNome, lat.value, lon.value, alt.value, inicio.value, e.sgEstado.value))
    else None
  }

  predicate Registravel(e: CatalogEntry, p: Parsers) {
    DeMatoGrosso(e) && EstacaoDe(e, p).Some?
  }

  /** The codes the entries name. */
  function Codigos(mt: seq<CatalogEntry>): set<string> {
    if mt == [] then {} else Codigos(mt[..|mt| - 1]) + {mt[|mt| - 1].cdEstacao}
  }

  /** A code is among the codes of the entries exactly when some entry names it. */
  lemma {:induction false} CodigosSpec(mt: seq<CatalogEntry>)
    ensures forall c :: c in Codigos(mt) <==> exists i :: 0 <= i < |mt| && mt[i].cdEstacao == c
  {
    if mt != [] {
      var n := |mt| - 1;
      CodigosSpec(mt[..n]);
      assert forall i :: 0 <= i < n ==> mt[..n][i] == mt[i];
    }
  }

  /** The station table after upserting the Mato Grosso entries `mt`, in order, by `codigo`:
      it gains exactly the entries' codes, every station it writes is a Mato Grosso station,
      and the stations the entries do not name keep their record. */
  function Cadastradas(m: map<string, Estacao>, mt: seq<CatalogEntry>, p: Parsers): (r: map<string, Estacao>)
    requires forall i :: 0 <= i < |mt| ==> Registravel(mt[i], p)
    ensures r.Keys == m.Keys + Codigos(mt)
    ensures forall c :: c in Codigos(mt) ==> r[c].uf == "MT"
    ensures forall c :: c in m && c !in Codigos(mt) ==> r[c] == m[c]
  {
    if mt == [] then m
    else
      var n := |mt| - 1;
      assert Registravel(mt[n], p);
      Cadastradas(m, mt[..n], p)[mt[n].cdEstacao := EstacaoDe(mt[n], p).value]
  }

  /** The position of the last entry naming `c`. */
  function Ultima(mt: seq<CatalogEntry>, c: string): (j: nat)
    requires c in Codigos(mt)
    ensures j < |mt| && mt[j].cdEstacao == c
    ensures forall i :: j < i < |mt| ==> mt[i].cdEstacao != c
  {
    var n := |mt| - 1;
    if mt[n].cdEstacao == c then n
    else
      assert forall i :: 0 <= i < n ==> mt[..n][i] == mt[i];
      Ultima(mt[..n], c)
  }

  /** The record a code ends up with is the one built from the last entry naming it. */
  lemma {:induction false} CadastradasUltima(m: map<string, Estacao>, mt: seq<CatalogEntry>, p: Parsers, c: string)
    requires forall i :: 0 <= i < |mt| ==> Registravel(mt[i], p)
    requires c in Codigos(mt)
    ensures Some(Cadastradas(m, mt, p)[c]) == EstacaoDe(mt[Ultima(mt, c)], p)
  {
    var n := |mt| - 1;
    if mt[n].cdEstacao != c {
      var pre := mt[..n];
      assert forall i :: 0 <= i < n ==> pre[i] == mt[i];
      CadastradasUltima(m, pre, p, c);
    }
  }

  /** Where the catalog step stops: the first Mato Grosso entry whose conversion raises. */
  function PrimeiraInvalida(mt: seq<CatalogEntry>, p: Parsers): (k: nat)
    ensures k <= |mt|
    ensures forall j :: 0 <= j < k ==> Registravel(mt[j], p)
    ensures k < |mt| ==> !Registravel(mt[k], p)
  {
    FirstFailing(mt, Registraveis(p))
  }

  function Registraveis(p: Parsers): CatalogEntry -> bool {
    (e: CatalogEntry) => Registravel(e, p)
  }

  /** The station table after the catalog step upserted the Mato Grosso entries `mt` up to
      the first one that raises. */
  function CadastradasAte(m: map<string, Estacao>, mt: seq<CatalogEntry>, p: Parsers): map<string, Estacao> {
    var k := PrimeiraInvalida(mt, p);
    assert forall i :: 0 <= i < k ==> mt[..k][i] == mt[i];
    Cadastradas(m, mt[..k], p)
  }

  /** How the catalog step ended. */
  datatype Cadastro =
    | FalhaCatalogo(erro: RequestException)   // the catalog fetch failed
    | EntradaInvalida(posicao: nat)           // a ValueError on this Mato Grosso entry
    | Cadastrado(quantidade: nat)             // every Mato Grosso entry was saved

  /** `cadastrar_estacoes`: keep the Mato Grosso entries and upsert them one by one by
      `codigo`. A failed fetch changes nothing. A conversion error on an entry stops the step
      there, with the entries before it already saved. */
  method CadastrarEstacoes(db: Database, catalogo: Response<seq<CatalogEntry>>, p: Parsers) returns (r: Cadastro)
    modifies db`estacoes
    ensures catalogo.Failure? ==> r == FalhaCatalogo(catalogo.error) && db.estacoes == old(db.estacoes)
    ensures catalogo.Success? ==>
              var mt := Filter(catalogo.value, DeMatoGrosso);
              var k := PrimeiraInvalida(mt, p);
              db.estacoes == CadastradasAte(old(db.estacoes), mt, p)
              && r == (if k == |mt| then Cadastrado(|mt|) else EntradaInvalida(k))
  {
    if catalogo.Failure? {
      return FalhaCatalogo(catalogo.error);
    }
    var mt := Filter(catalogo.value, DeMatoGrosso);
    r := Cadastrar(db, mt, p);
  }

  /** The upsert loop of the catalog step, over the Mato Grosso entries `mt`. */
  method Cadastrar(db: Database, mt: seq<CatalogEntry>, p: Parsers) returns (r: Cadastro)
    requires forall i :: 0 <= i < |mt| ==> DeMatoGrosso(mt[i])
    modifies db`estacoes
    ensures db.estacoes == CadastradasAte(old(db.estacoes), mt, p)
    ensures r == if PrimeiraInvalida(mt, p) == |mt| then Cadastrado(|mt|) else EntradaInvalida(PrimeiraInvalida(mt, p))
  {
    ghost var k := PrimeiraInvalida(mt, p);
    ghost var m0 := db.estacoes;
    var i := 0;
    while i < |mt|
      invariant 0 <= i <= k
      invariant db.estacoes == Cadastradas(m0, mt[..i], p)
    {
      var e := EstacaoDe(mt[i], p);
      if e.None? {
        assert i == k;
        return EntradaInvalida(i);
      }
      assert i < k;
      CadastradasPasso(m0, mt, i, p);
      db.UpsertEstacao(mt[i].cdEstacao, e.value);
      i := i + 1;
    }
    assert i == k == |mt|;
    r := Cadastrado(|mt|);
  }

  /** Upserting the entries up to `i` inclusive is upserting those before it, then entry `i`. */
  lemma CadastradasPasso(m: map<string, Estacao>, mt: seq<CatalogEntry>, i: nat, p: Parsers)
    requires i < |mt| && forall j :: 0 <= j <= i ==> Registravel(mt[j], p)
    ensures Cadastradas(m, mt[..i + 1], p) == Cadastradas(m, mt[..i], p)[mt[i].cdEstacao := EstacaoDe(mt[i], p).value]
  {
    assert mt[..i + 1] == mt[..i] + [mt[i]];
    CadastradasMais(m, mt[..i], mt[i], p);
  }

  /** Upserting one more registrable entry updates its code and nothing else. */
  lemma CadastradasMais(m: map<string, Estacao>, mt: seq<CatalogEntry>, e: CatalogEntry, p: Parsers)
    requires forall i :: 0 <= i < |mt| ==> Registravel(mt[i], p)
    requires Registravel(e, p)
    ensures forall i :: 0 <= i < |mt + [e]| ==> Registravel((mt + [e])[i], p)
    ensures Cadastradas(m, mt + [e], p) == Cadastradas(m, mt, p)[e.cdEstacao := EstacaoDe(e, p).value]
  {
    assert (mt + [e])[..|mt|] == mt;
  }

  /** One record of a station's daily series. `DT_MEDICAO` is read by key; the four measures
      are read with `.get` and may be absent or null. */
  datatype DailyRecord = DailyRecord(
    dtMedicao: string,
    preMax: Option<string>,
    temMax: Option<string>,
    temMin: Option<string>,
    umdMed: Option<string>)

  /** `float(dado[f]) if dado.get(f) else None`: an absent, null or empty field is stored as
      null; any other text goes through `float`. The outer `None` is `float` raising. */
  function Campo(v: Option<string>, p: Parsers): (r: Option<Option<real>>)
    ensures v.None? || v == Some("") ==> r == Some(None)
    ensures r == Some(None) ==> v.None? || v == Some("")
    ensures forall x :: r == Some(Some(x)) <==> v.Some? && v.value != "" && p.float(v.value) == Some(x)
    ensures r.None? <==> v.Some? && v.value != "" && p.float(v.value).None?
  {
    if v.None? || v.value == "" then Some(None)
    else if p.float(v.value).None? then None
    else Some(p.float(v.value))
  }

  /** A record is saved only when its date and all four fields convert. */
  predicate Convertivel(d: DailyRecord, p: Parsers) {
    p.isoDate(d.dtMedicao).Some?
    && Campo(d.preMax, p).Some? && Campo(d.temMax, p).Some?
    && Campo(d.temMin, p).Some? && Campo(d.umdMed, p).Some?
  }

  /** The upsert a convertible record becomes: keyed by the station and the date, with all
      four measures as defaults. */
  function Gravacao(codigo: string, d: DailyRecord, p: Parsers): (w: Write)
    requires Convertivel(d, p)
    ensures w.Overwrite? && w.key == DadoKey(Station(codigo), p.isoDate(d.dtMedicao).value)
    ensures Some(w.dado.precipitacaoMm) == Campo(d.preMax, p)
            && Some(w.dado.temperaturaMaximaC) == Campo(d.temMax, p)
            && Some(w.dado.temperaturaMinimaC) == Campo(d.temMin, p)
            && Some(w.dado.umidadeMediaPorc) == Campo(d.umdMed, p)
  {
    Overwrite(DadoKey(Station(codigo), p.isoDate(d.dtMedicao).value),
              Dado(Campo(d.preMax, p).value, Campo(d.temMax, p).value,
                   Campo(d.temMin, p).value, Campo(d.umdMed, p).value))
  }

  function Gravacoes(codigo: string, ds: seq<DailyRecord>, p: Parsers): (ws: seq<Write>)
    requires forall i :: 0 <= i < |ds| ==> Convertivel(ds[i], p)
    ensures |ws| == |ds| && forall i :: 0 <= i < |ds| ==> ws[i] == Gravacao(codigo, ds[i], p)
  {
    seq(|ds|, i requires 0 <= i < |ds| => Gravacao(codigo, ds[i], p))
  }

  /** Where the save loop of a window stops: the first record that does not convert. */
  function Parada(ds: seq<DailyRecord>, p: Parsers): (k: nat)
    ensures k <= |ds|
    ensures forall j :: 0 <= j < k ==> Convertivel(ds[j], p)
    ensures k < |ds| ==> !Convertivel(ds[k], p)
  {
    FirstFailing(ds, Convertiveis(p))
  }

  function Convertiveis(p: Parsers): DailyRecord -> bool {
    (d: DailyRecord) => Convertivel(d, p)
  }

  /** The writes a fetched window makes: the records before the first one that does not
      convert, each as its upsert. All of them are the station's own observations. */
  function GravacoesJanela(codigo: string, ds: seq<DailyRecord>, p: Parsers): (ws: seq<Write>)
    ensures |ws| == Parada(ds, p) <= |ds|
    ensures forall i :: 0 <= i < |ws| ==> ws[i] == Gravacao(codigo, ds[i], p)
    ensures forall i :: 0 <= i < |ws| ==> ws[i].key.owner == Station(codigo)
  {
    Gravacoes(codigo, ds[..Parada(ds, p)], p)
  }

  /** The writes a fetch result makes: none for a failed fetch or an empty series. */
  function GravacoesResposta(codigo: string, resp: Response<seq<DailyRecord>>, p: Parsers): (ws: seq<Write>)
    ensures resp.Failure? || resp.value == [] ==> ws == []
    ensures forall i :: 0 <= i < |ws| ==> ws[i].key.owner == Station(codigo)
  {
    if resp.Failure? || resp.value == [] then [] else GravacoesJanela(codigo, resp.value, p)
  }

  /** One daily-series request: `/estacao/<inicio>/<fim>/<codigo>`. */
  datatype InmetRequest = InmetRequest(codigo: string, janela: Window)

  /** The windows a station-year is queried with: the command splits the year into two
      halves, the Celery task asks for the whole year at once. */
  datatype Plano = Semestral | Anual

  function Janelas(plano: Plano, ano: int): seq<Window> {
    match plano
    case Semestral => Semestres(ano)
    case Anual => [AnoInteiro(ano)]
  }

  /** A station is queried for a year only from the year it started operating. */
  predicate Elegivel(e: Estacao, ano: int) {
    ano >= e.dataInicioOperacao.year
  }

  /** The crop years a station is queried for, in the order of `anos`. */
  function Elegiveis(e: Estacao, anos: seq<int>): (r: seq<int>)
    ensures forall x :: x in r <==> x in anos && Elegivel(e, x)
  {
    if anos == [] then []
    else
      var n := |anos| - 1;
      assert anos == anos[..n] + [anos[n]];
      Elegiveis(e, anos[..n]) + (if Elegivel(e, anos[n]) then [anos[n]] else [])
  }

  function PedidosAno(codigo: string, ws: seq<Window>): (rs: seq<InmetRequest>)
    ensures |rs| == |ws| && forall i :: 0 <= i < |ws| ==> rs[i] == InmetRequest(codigo, ws[i])
  {
    seq(|ws|, i requires 0 <= i < |ws| => InmetRequest(codigo, ws[i]))
  }

  /** The requests of one crop year of a station: one per window of the plan, or none when
      the station is not eligible for that year. */
  function PedidosDoAno(codigo: string, e: Estacao, plano: Plano): int -> seq<InmetRequest> {
    (ano: int) => if Elegivel(e, ano) then PedidosAno(codigo, Janelas(plano, ano)) else []
  }

  /** The requests made for one station, in order, year after year. */
  function PedidosEstacao(codigo: string, e: Estacao, anos: seq<int>, plano: Plano): seq<InmetRequest> {
    ConcatMap(anos, PedidosDoAno(codigo, e, plano))
  }

  /** With the command's plan, each eligible crop year yields exactly two requests, in order:
      the first half of that year, then the second half. */
  lemma {:induction false} SemestreSpec(codigo: string, e: Estacao, anos: seq<int>)
    ensures var rs := PedidosEstacao(codigo, e, anos, Semestral);
            var el := Elegiveis(e, anos);
            |rs| == 2 * |el|
            && forall j :: 0 <= j < |el| ==>
                 rs[2 * j] == InmetRequest(codigo, Window(Date(el[j], 1, 1), Date(el[j], 6, 30)))
                 && rs[2 * j + 1] == InmetRequest(codigo, Window(Date(el[j], 7, 1), Date(el[j], 12, 31)))
  {
    if anos != [] {
      var n := |anos| - 1;
      SemestreSpec(codigo, e, anos[..n]);
    }
  }

  /** With the task's plan, each eligible crop year yields one request, for the whole year. */
  lemma {:induction false} AnualSpec(codigo: string, e: Estacao, anos: seq<int>)
    ensures var rs := PedidosEstacao(codigo, e, anos, Anual);
            var el := Elegiveis(e, anos);
            |rs| == |el|
            && forall j :: 0 <= j < |el| ==> rs[j] == InmetRequest(codigo, Window(Date(el[j], 1, 1), Date(el[j], 12, 31)))
  {
    if anos != [] {
      var n := |anos| - 1;
      AnualSpec(codigo, e, anos[..n]);
    }
  }

  /** What one window of a station contributes: the writes of its fetch result. */
  function DaJanela(codigo: string, fetch: InmetRequest -> Response<seq<DailyRecord>>, p: Parsers): Window -> seq<Write> {
    (w: Window) => GravacoesResposta(codigo, fetch(InmetRequest(codigo, w)), p)
  }

  /** The writes of the windows `ws` of one station, window after window. */
  function GravacoesAno(codigo: string, ws: seq<Window>, fetch: InmetRequest -> Response<seq<DailyRecord>>,
                        p: Parsers): seq<Write> {
    ConcatMap(ws, DaJanela(codigo, fetch, p))
  }

  /** A failed or empty window is skipped without affecting the others: the writes are those
      of the remaining windows, as if it had not been requested. */
  lemma JanelaIgnorada(codigo: string, antes: seq<Window>, w: Window, depois: seq<Window>,
                       fetch: InmetRequest -> Response<seq<DailyRecord>>, p: Parsers)
    requires var resp := fetch(InmetRequest(codigo, w)); resp.Failure? || resp.value == []
    ensures GravacoesAno(codigo, antes + [w] + depois, fetch, p) == GravacoesAno(codigo, antes + depois, fetch, p)
  {
    var f := DaJanela(codigo, fetch, p);
    assert f(w) == [];
    ConcatMapSnoc(antes, w, f);
    var a := ConcatMap(antes + [w], f);
    assert a == ConcatMap(antes, f) + [];
    ConcatMapAppend(antes + [w], depois, f);
    ConcatMapAppend(antes, depois, f);
    assert ConcatMap(antes + [w] + depois, f) == a + ConcatMap(depois, f);
  }

  /** What one crop year of a station contributes: the writes of its windows, or none when the
      station is not eligible for it. */
  function DoAno(codigo: string, e: Estacao, plano: Plano, fetch: InmetRequest -> Response<seq<DailyRecord>>,
                 p: Parsers): int -> seq<Write> {
    (ano: int) => if Elegivel(e, ano) then GravacoesAno(codigo, Janelas(plano, ano), fetch, p) else []
  }

  /** The writes of one station over the crop years. */
  function GravacoesEstacao(codigo: string, e: Estacao, anos: seq<int>, plano: Plano,
                            fetch: InmetRequest -> Response<seq<DailyRecord>>, p: Parsers): seq<Write> {
    ConcatMap(anos, DoAno(codigo, e, plano, fetch, p))
  }

  /** A station's writes are all observations of that station. */
  lemma GravacoesEstacaoOwner(codigo: string, e: Estacao, anos: seq<int>, plano: Plano,
                              fetch: InmetRequest -> Response<seq<DailyRecord>>, p: Parsers)
    ensures forall i :: 0 <= i < |GravacoesEstacao(codigo, e, anos, plano, fetch, p)| ==>
              GravacoesEstacao(codigo, e, anos, plano, fetch, p)[i].key.owner == Station(codigo)
  {
    var ok := (w: Write) => w.key.owner == Station(codigo);
    var g := DaJanela(codigo, fetch, p);
    var f := DoAno(codigo, e, plano, fetch, p);
    forall a | a in anos
      ensures forall i :: 0 <= i < |f(a)| ==> ok(f(a)[i])
    {
      forall w, i | w in Janelas(plano, a) && 0 <= i < |g(w)|
        ensures ok(g(w)[i])
      {
        var resp := fetch(InmetRequest(codigo, w));
        assert g(w) == GravacoesResposta(codigo, resp, p);
      }
      ConcatMapEvery(Janelas(plano, a), g, ok);
      assert f(a) == if Elegivel(e, a) then ConcatMap(Janelas(plano, a), g) else [];
    }
    ConcatMapEvery(anos, f, ok);
    assert GravacoesEstacao(codigo, e, anos, plano, fetch, p) == ConcatMap(anos, f);
  }

  /** The daily writes by owner: a registered Mato Grosso station gets the writes of its
      requests; any other owner gets none. */
  function BlocoEstacao(estacoes: map<string, Estacao>, anos: seq<int>, plano: Plano,
                        fetch: InmetRequest -> Response<seq<DailyRecord>>, p: Parsers): Owner -> seq<Write> {
    (o: Owner) =>
      if o.Station? && o.codigo in estacoes && estacoes[o.codigo].uf == "MT"
      then GravacoesEstacao(o.codigo, estacoes[o.codigo], anos, plano, fetch, p)
      else []
  }

  /** The codes of the Mato Grosso stations, as `filter(uf='MT')` sees them. */
  function CodigosMT(estacoes: map<string, Estacao>): set<string> {
    set c | c in estacoes && estacoes[c].uf == "MT"
  }

  predicate EstacoesRegistradas(ordem: seq<Owner>, estacoes: map<string, Estacao>) {
    forall i :: 0 <= i < |ordem| ==> ordem[i].Station? && ordem[i].codigo in estacoes
  }

  /** The requests of the stations in `ordem`, station after station. */
  function PedidosOrdem(ordem: seq<Owner>, estacoes: map<string, Estacao>, anos: seq<int>, plano: Plano): seq<InmetRequest>
    requires EstacoesRegistradas(ordem, estacoes)
  {
    if ordem == [] then []
    else
      var n := |ordem| - 1;
      PedidosOrdem(ordem[..n], estacoes, anos, plano)
        + PedidosEstacao(ordem[n].codigo, estacoes[ordem[n].codigo], anos, plano)
  }

  /** Saves one fetched window: the records are upserted in order until one does not convert;
      that exception ends the window, and what was saved stays. */
  method SalvarJanela(db: Database, codigo: string, ds: seq<DailyRecord>, p: Parsers)
    modifies db`dados
    ensures db.dados == ApplyWrites(old(db.dados), GravacoesJanela(codigo, ds, p))
  {
    ghost var m0 := db.dados;
    ghost var k := Parada(ds, p);
    var i := 0;
    while i < |ds| && Convertivel(ds[i], p)
      invariant 0 <= i <= k
      invariant db.dados == ApplyWrites(m0, Gravacoes(codigo, ds[..i], p))
    {
      GravacoesMais(codigo, ds, i, p);
      db.SaveDado(Gravacao(codigo, ds[i], p));
      i := i + 1;
    }
    assert i == k;
  }

  /** One more convertible record appends its upsert. */
  lemma GravacoesMais(codigo: string, ds: seq<DailyRecord>, i: nat, p: Parsers)
    requires i < |ds| && forall j :: 0 <= j <= i ==> Convertivel(ds[j], p)
    ensures Gravacoes(codigo, ds[..i + 1], p) == Gravacoes(codigo, ds[..i], p) + [Gravacao(codigo, ds[i], p)]
  {
  }

  /** Fetches and saves the windows of one station-year, in order. A failed fetch or an empty
      series skips only that window. */
  method ImportarAno(db: Database, codigo: string, periodos: seq<Window>,
                     fetch: InmetRequest -> Response<seq<DailyRecord>>, p: Parsers)
    returns (ghost pedidos: seq<InmetRequest>)
    modifies db`dados
    ensures pedidos == PedidosAno(codigo, periodos)
    ensures db.dados == ApplyWrites(old(db.dados), GravacoesAno(codigo, periodos, fetch, p))
  {
    ghost var m0 := db.dados;
    pedidos := [];
    var j := 0;
    assert periodos[..0] == [];
    while j < |periodos|
      invariant 0 <= j <= |periodos|
      invariant pedidos == PedidosAno(codigo, periodos[..j])
      invariant db.dados == ApplyWrites(m0, GravacoesAno(codigo, periodos[..j], fetch, p))
    {
      var req := InmetRequest(codigo, periodos[j]);
      var resposta := fetch(req);
      ghost var feitas := GravacoesAno(codigo, periodos[..j], fetch, p);
      JanelaMais(codigo, periodos, j, fetch, p);
      if resposta.Success? && resposta.value != [] {
        SalvarJanela(db, codigo, resposta.value, p);
        ApplyWritesAppend(m0, feitas, GravacoesResposta(codigo, resposta, p));
      } else {
        assert feitas + GravacoesResposta(codigo, resposta, p) == feitas;
      }
      pedidos := pedidos + [req];
      j := j + 1;
    }
    assert periodos[..j] == periodos;
  }

  /** One more window appends its request and the writes of its response. */
  lemma JanelaMais(codigo: string, periodos: seq<Window>, j: nat,
                   fetch: InmetRequest -> Response<seq<DailyRecord>>, p: Parsers)
    requires j < |periodos|
    ensures PedidosAno(codigo, periodos[..j + 1]) == PedidosAno(codigo, periodos[..j]) + [InmetRequest(codigo, periodos[j])]
    ensures GravacoesAno(codigo, periodos[..j + 1], fetch, p)
            == GravacoesAno(codigo, periodos[..j], fetch, p)
               + GravacoesResposta(codigo, fetch(InmetRequest(codigo, periodos[j])), p)
  {
    assert periodos[..j + 1] == periodos[..j] + [periodos[j]];
    ConcatMapSnoc(periodos[..j], periodos[j], DaJanela(codigo, fetch, p));
  }

  /** One more crop year appends that year's requests and writes, or nothing when the station
      is not eligible for it. */
  lemma EstacaoMaisUmAno(codigo: string, e: Estacao, anos: seq<int>, ano: int, plano: Plano,
                         fetch: InmetRequest -> Response<seq<DailyRecord>>, p: Parsers)
    ensures PedidosEstacao(codigo, e, anos + [ano], plano)
            == PedidosEstacao(codigo, e, anos, plano)
               + (if Elegivel(e, ano) then PedidosAno(codigo, Janelas(plano, ano)) else [])
    ensures GravacoesEstacao(codigo, e, anos + [ano], plano, fetch, p)
            == GravacoesEstacao(codigo, e, anos, plano, fetch, p)
               + (if Elegivel(e, ano) then GravacoesAno(codigo, Janelas(plano, ano), fetch, p) else [])
  {
    ConcatMapSnoc(anos, ano, PedidosDoAno(codigo, e, plano));
    ConcatMapSnoc(anos, ano, DoAno(codigo, e, plano, fetch, p));
  }

  /** `EstacaoMaisUmAno` for the prefixes the loop walks through. */
  lemma EstacaoPasso(codigo: string, e: Estacao, anos: seq<int>, i: nat, plano: Plano,
                     fetch: InmetRequest -> Response<seq<DailyRecord>>, p: Parsers)
    requires i < |anos|
    ensures PedidosEstacao(codigo, e, anos[..i + 1], plano)
            == PedidosEstacao(codigo, e, anos[..i], plano)
               + (if Elegivel(e, anos[i]) then PedidosAno(codigo, Janelas(plano, anos[i])) else [])
    ensures GravacoesEstacao(codigo, e, anos[..i + 1], plano, fetch, p)
            == GravacoesEstacao(codigo, e, anos[..i], plano, fetch, p)
               + (if Elegivel(e, anos[i]) then GravacoesAno(codigo, Janelas(plano, anos[i]), fetch, p) else [])
  {
    assert anos[..i + 1] == anos[..i] + [anos[i]];
    EstacaoMaisUmAno(codigo, e, anos[..i], anos[i], plano, fetch, p);
  }

  /** Fetches and saves the windows of one station, year by year. */
  method ImportarEstacao(db: Database, codigo: string, e: Estacao, anos: seq<int>, plano: Plano,
                         fetch: InmetRequest -> Response<seq<DailyRecord>>, p: Parsers)
    returns (ghost pedidos: seq<InmetRequest>)
    modifies db`dados
    ensures pedidos == PedidosEstacao(codigo, e, anos, plano)
    ensures db.dados == ApplyWrites(old(db.dados), GravacoesEstacao(codigo, e, anos, plano, fetch, p))
  {
    ghost var m0 := db.dados;
    pedidos := [];
    var i := 0;
    while i < |anos|
      invariant 0 <= i <= |anos|
      invariant pedidos == PedidosEstacao(codigo, e, anos[..i], plano)
      invariant db.dados == ApplyWrites(m0, GravacoesEstacao(codigo, e, anos[..i], plano, fetch, p))
    {
      var ano := anos[i];
      EstacaoPasso(codigo, e, anos, i, plano, fetch, p);
      ghost var gBase := GravacoesEstacao(codigo, e, anos[..i], plano, fetch, p);
      if Elegivel(e, ano) {
        ghost var feitos := ImportarAno(db, codigo, Janelas(plano, ano), fetch, p);
        ApplyWritesAppend(m0, gBase, GravacoesAno(codigo, Janelas(plano, ano), fetch, p));
        pedidos := pedidos + feitos;
      } else {
        assert gBase + [] == gBase;
      }
      i := i + 1;
    }
    assert anos[..|anos|] == anos;
  }

  /** `importar_dados_diarios`: with no crop year nothing is fetched and nothing changes.
      Otherwise every registered Mato Grosso station is handled once, in an order the query
      leaves open (`ordem`), each with the requests of its eligible years. */
  method ImportarDadosDiarios(db: Database, plano: Plano,
                              fetch: InmetRequest -> Response<seq<DailyRecord>>, p: Parsers)
    returns (ghost pedidos: seq<InmetRequest>, ghost ordem: seq<Owner>)
    modifies db`dados
    ensures var anos := Sorted(AnosDeSafra(db.safras));
            (anos == [] ==> pedidos == [] && ordem == [] && db.dados == old(db.dados))
            && (anos != [] ==> forall o :: o in ordem <==> o.Station? && o.codigo in CodigosMT(db.estacoes))
            && Distinct(ordem) && EstacoesRegistradas(ordem, db.estacoes)
            && pedidos == PedidosOrdem(ordem, db.estacoes, anos, plano)
            && db.dados == ApplyWrites(old(db.dados), Blocks(ordem, BlocoEstacao(db.estacoes, anos, plano, fetch, p)))
  {
    var anos := SortedList(AnosDeSafra(db.safras));
    pedidos, ordem := [], [];
    if anos == [] {
      return;
    }
    pedidos, ordem := ImportarEstacoes(db, CodigosMT(db.estacoes), db.estacoes, anos, plano, fetch, p);
  }

  /** The loop over the stations: each code of `codigos` is taken once, in an order left open,
      and imported. */
  method ImportarEstacoes(db: Database, codigos: set<string>, estacoes: map<string, Estacao>, anos: seq<int>,
                          plano: Plano, fetch: InmetRequest -> Response<seq<DailyRecord>>, p: Parsers)
    returns (ghost pedidos: seq<InmetRequest>, ghost ordem: seq<Owner>)
    requires forall c :: c in codigos ==> c in estacoes && estacoes[c].uf == "MT"
    modifies db`dados
    ensures forall o :: o in ordem <==> o.Station? && o.codigo in codigos
    ensures Distinct(ordem) && EstacoesRegistradas(ordem, estacoes)
    ensures pedidos == PedidosOrdem(ordem, estacoes, anos, plano)
    ensures db.dados == ApplyWrites(old(db.dados), Blocks(ordem, BlocoEstacao(estacoes, anos, plano, fetch, p)))
  {
    ghost var block := BlocoEstacao(estacoes, anos, plano, fetch, p);
    pedidos, ordem := [], [];
    ghost var m0 := db.dados;
    var resto := codigos;
    while resto != {}
      invariant resto <= codigos
      invariant Distinct(ordem) && EstacoesRegistradas(ordem, estacoes)
      invariant forall o :: o in ordem <==> o.Station? && o.codigo in codigos && o.codigo !in resto
      invariant pedidos == PedidosOrdem(ordem, estacoes, anos, plano)
      invariant db.dados == ApplyWrites(m0, Blocks(ordem, block))
      decreases |resto|
    {
      if forall c :: c !in resto {
        assert false;
      }
      var codigo :| codigo in resto;
      assert Station(codigo) !in ordem;
      ghost var antes := ordem;
      ghost var feitos := ImportarEstacao(db, codigo, estacoes[codigo], anos, plano, fetch, p);
      ApplyWritesAppend(m0, Blocks(antes, block), block(Station(codigo)));
      OrdemMais(antes, codigo, estacoes, anos, plano);
      pedidos := pedidos + feitos;
      ordem := ordem + [Station(codigo)];
      resto := resto - {codigo};
    }
  }

  /** One more station in the order: still each station once, and its requests follow. */
  lemma OrdemMais(ordem: seq<Owner>, codigo: string, estacoes: map<string, Estacao>, anos: seq<int>, plano: Plano)
    requires Distinct(ordem) && EstacoesRegistradas(ordem, estacoes)
    requires codigo in estacoes && Station(codigo) !in ordem
    ensures var o2 := ordem + [Station(codigo)];
            Distinct(o2) && EstacoesRegistradas(o2, estacoes) && o2[..|o2| - 1] == ordem
            && PedidosOrdem(o2, estacoes, anos, plano)
               == PedidosOrdem(ordem, estacoes, anos, plano) + PedidosEstacao(codigo, estacoes[codigo], anos, plano)
  {
    var o2 := ordem + [Station(codigo)];
    assert o2[..|o2| - 1] == ordem;
  }

  /** The order of the stations does not matter: any two orders that list the same stations,
      each once, leave the same observation table. */
  lemma DiariosIndependemDaOrdem(m: DadoTable, estacoes: map<string, Estacao>, anos: seq<int>, plano: Plano,
                                 fetch: InmetRequest -> Response<seq<DailyRecord>>, p: Parsers,
                                 o1: seq<Owner>, o2: seq<Owner>)
    requires Distinct(o1) && Distinct(o2)
    requires forall o :: o in o1 <==> o in o2
    ensures var block := BlocoEstacao(estacoes, anos, plano, fetch, p);
            ApplyWrites(m, Blocks(o1, block)) == ApplyWrites(m, Blocks(o2, block))
  {
    var block := BlocoEstacao(estacoes, anos, plano, fetch, p);
    forall o, i | 0 <= i < |block(o)|
      ensures block(o)[i].key.owner == o
    {
      GravacoesEstacaoOwner(o.codigo, estacoes[o.codigo], anos, plano, fetch, p);
    }
    OrderIrrelevant(m, o1, o2, block);
  }

  /** How the command ended. */
  datatype Execucao =
    | Interrompida(posicao: nat)   // a catalog entry raised; the daily import did not run
    | Concluida                    // both phases ran

  /** `Command.handle`: the catalog step, then the daily import with half-year windows. A
      catalog fetch failure is only reported, and the daily import still runs on the stations
      already registered. Otherwise the Mato Grosso entries are registered up to the first whose
      conversion raises; that error ends the command before the daily import, and without one
      the daily import runs on the updated station table. */
  method Handle(db: Database, catalogo: Response<seq<CatalogEntry>>,
                fetch: InmetRequest -> Response<seq<DailyRecord>>, p: Parsers)
    returns (r: Execucao, ghost pedidos: seq<InmetRequest>, ghost ordem: seq<Owner>)
    modifies db`estacoes, db`dados
    ensures catalogo.Failure? ==> db.estacoes == old(db.estacoes) && r == Concluida
    ensures catalogo.Success? ==>
              var mt := Filter(catalogo.value, DeMatoGrosso);
              var k := PrimeiraInvalida(mt, p);
              db.estacoes == CadastradasAte(old(db.estacoes), mt, p)
              && r == (if k < |mt| then Interrompida(k) else Concluida)
    ensures r.Interrompida? ==> pedidos == [] && db.dados == old(db.dados)
    ensures r.Concluida? ==>
              var anos := Sorted(AnosDeSafra(db.safras));
              (anos != [] ==> forall o :: o in ordem <==> o.Station? && o.codigo in CodigosMT(db.estacoes))
              && Distinct(ordem) && EstacoesRegistradas(ordem, db.estacoes)
              && pedidos == PedidosOrdem(ordem, db.estacoes, anos, Semestral)
              && db.dados == ApplyWrites(old(db.dados), Blocks(ordem, BlocoEstacao(db.estacoes, anos, Semestral, fetch, p)))
  {
    var cadastro := CadastrarEstacoes(db, catalogo, p);
    if cadastro.EntradaInvalida? {
      return Interrompida(cadastro.posicao), [], [];
    }
    pedidos, ordem := ImportarDadosDiarios(db, Semestral, fetch, p);
    r := Concluida;
  }
}
