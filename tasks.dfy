/** The two Celery tasks of core/tasks.py. `importar_dados_conab_task` is the Conab reload
    without the command's `strip` and without its transaction; `importar_dados_inmet_task` is
    the INMET import with one whole-year window per station-year and with its own way of
    ending on a failed catalog fetch or an empty crop table. */
module Tasks {
  import opened Wrappers
  import opened Text
  import opened Ordering
  import opened Sequences
  import opened Models
  import opened Http
  import opened Parsing
  import opened ProcessaConab
  import opened Store
  import opened ImportarSafras
  import opened ImportarInmet

  /** `importar_dados_conab_task`. A failed download returns its error before the table is
      touched, and so does a transform that raises. Otherwise the table is emptied and the
      rows are upserted with `produto` as it came; the first row the database refuses ends the
      task with the error string, and since there is no transaction the table keeps the rows
      upserted before it. */
  method ConabTask(db: Database, download: Response<seq<ConabRow>>) returns (r: Resultado)
    requires db.Valid()
    modifies db`safras
    ensures db.Valid()
    ensures download.Failure? ==> r == ErroDownload(download.error) && db.safras == old(db.safras)
    ensures download.Success? && Transform(download.value).Failure? ==>
              r == ErroTransformacao(Transform(download.value).error) && db.safras == old(db.safras)
    ensures download.Success? && Transform(download.value).Success? ==>
              var rows := Transform(download.value).value;
              var k := PrimeiraRecusada(rows, false);
              db.safras == TabelaCarregada(rows[..k], false)
              && r == (if k == |rows| then Concluido(|Chaves(rows, false)|) else ErroCarga(k))
  {
    if download.Failure? {
      return ErroDownload(download.error);
    }
    var transformado := Transform(download.value);
    if transformado.Failure? {
      return ErroTransformacao(transformado.error);
    }
    var rows := transformado.value;
    db.DeleteAllSafras();
    var ok, criados := Carrega(db, rows, false);
    if ok {
      r := Concluido(criados);
    } else {
      r := ErroCarga(PrimeiraRecusada(rows, false));
    }
  }

  /** When every product name is already trimmed, the task loads what the command loads: the
      same rows are refused first, and the same table results. */
  lemma TarefaComoComando(rows: seq<CropRow>)
    requires forall i :: 0 <= i < |rows| ==> Trimmed(rows[i].produto)
    ensures PrimeiraRecusada(rows, false) == PrimeiraRecusada(rows, true)
    ensures TabelaCarregada(rows, false) == TabelaCarregada(rows, true)
  {
    forall i | 0 <= i < |rows|
      ensures ChaveDe(rows[i], false) == ChaveDe(rows[i], true)
    {
      StripTrimmed(rows[i].produto);
    }
    StripIrrelevante(rows);
  }

  /** A load the database stops at row `k > 0` leaves, without a transaction, a table holding
      the first row's key: the partial reload stays visible. */
  lemma CargaParcialVisivel(rows: seq<CropRow>)
    requires 0 < PrimeiraRecusada(rows, false) < |rows|
    ensures var k := PrimeiraRecusada(rows, false);
            ChaveDe(rows[0], false) in TabelaCarregada(rows[..k], false)
            && TabelaCarregada(rows[..k], false) != TabelaCarregada(rows, false)
  {
    var k := PrimeiraRecusada(rows, false);
    CarregadaChaves(rows[..k], false);
    CarregadaChaves(rows, false);
    assert rows[..k][0] == rows[0];
    assert ChaveDe(rows[0], false) in Chaves(rows[..k], false);
    var bad := ChaveDe(rows[k], false);
    assert bad in Chaves(rows, false);
    assert !FitsColumns(bad);
    forall i | 0 <= i < k
      ensures ChaveDe(rows[..k][i], false) != bad
    {
      assert rows[..k][i] == rows[i];
      assert FitsColumns(ChaveDe(rows[i], false));
    }
    assert bad !in Chaves(rows[..k], false);
  }

  /** What the task leaves beside what the command leaves on the same rows. With trimmed names
      both stop at the same row `k`, so the command rolls back to the table `antes` it started
      from (`ImportarSafras.Handle`), while the task keeps the partial reload. That partial
      reload holds the first row's key, so it differs from any `antes` lacking that key, the
      empty table among them. */
  lemma TarefaVersusComando(rows: seq<CropRow>, antes: SafraTable)
    requires forall i :: 0 <= i < |rows| ==> Trimmed(rows[i].produto)
    requires 0 < PrimeiraRecusada(rows, false) < |rows|
    ensures PrimeiraRecusada(rows, true) == PrimeiraRecusada(rows, false)
    ensures ChaveDe(rows[0], true) !in antes ==>
              TabelaCarregada(rows[..PrimeiraRecusada(rows, false)], false) != antes
  {
    TarefaComoComando(rows);
    CargaParcialVisivel(rows);
    StripTrimmed(rows[0].produto);
  }

  /** How `importar_dados_inmet_task` ended. */
  datatype TarefaInmet =
    | ErroEstacoes(falha: RequestException)   // the catalog fetch failed
    | Abortada(posicao: nat)                  // a catalog entry raised; the task itself raised
    | SemAnos                                 // the crop table holds no year
    | Finalizada                              // the daily import ran

  /** The string the task returns; a task that raised returns none. */
  function Retorno(r: TarefaInmet): Option<string> {
    match r
    case ErroEstacoes(falha) => Some(PrefixoErroEstacoes + falha.message)
    case Abortada(_) => None
    case SemAnos => Some("Nenhum ano de safra encontrado.")
    case Finalizada => Some("Importação do INMET finalizada com sucesso.")
  }

  const PrefixoErroEstacoes: string := "ERRO ao buscar estações do INMET: "

  /** The returned string tells the outcomes apart, down to the catalog error's message. */
  lemma RetornoIdentifica(a: TarefaInmet, b: TarefaInmet)
    requires Retorno(a).Some? && Retorno(a) == Retorno(b)
    ensures a == b
  {
    var s := Retorno(a).value;
    assert s[0] == (if a.ErroEstacoes? then 'E' else if a.SemAnos? then 'N' else 'I');
    assert Retorno(b).value[0] == (if b.ErroEstacoes? then 'E' else if b.SemAnos? then 'N' else 'I');
    if a.ErroEstacoes? {
      var n := |PrefixoErroEstacoes|;
      assert s[n..] == a.falha.message;
      assert Retorno(b).value[n..] == b.falha.message;
    }
  }

  /** `importar_dados_inmet_task`. A failed catalog fetch ends the task before any daily
      fetch. A catalog entry that raises makes the task raise, with the entries before it
      saved. With no crop year the task returns before any daily fetch. Otherwise every
      registered Mato Grosso station is handled once, with one whole-year request per
      eligible crop year. */
  method InmetTask(db: Database, catalogo: Response<seq<CatalogEntry>>,
                   fetch: InmetRequest -> Response<seq<DailyRecord>>, p: Parsers)
    returns (r: TarefaInmet, ghost pedidos: seq<InmetRequest>, ghost ordem: seq<Owner>)
    modifies db`estacoes, db`dados
    ensures catalogo.Failure? ==>
              r == ErroEstacoes(catalogo.error) && db.estacoes == old(db.estacoes)
    ensures !r.Finalizada? ==> pedidos == [] && db.dados == old(db.dados)
    ensures catalogo.Success? ==>
              var mt := Filter(catalogo.value, DeMatoGrosso);
              var k := PrimeiraInvalida(mt, p);
              var anos := Sorted(AnosDeSafra(db.safras));
              db.estacoes == CadastradasAte(old(db.estacoes), mt, p)
              && r == (if k < |mt| then Abortada(k) else if anos == [] then SemAnos else Finalizada)
    ensures r.Finalizada? ==>
              var anos := Sorted(AnosDeSafra(db.safras));
              (forall o :: o in ordem <==> o.Station? && o.codigo in CodigosMT(db.estacoes))
              && Distinct(ordem) && EstacoesRegistradas(ordem, db.estacoes)
              && pedidos == PedidosOrdem(ordem, db.estacoes, anos, Anual)
              && db.dados == ApplyWrites(old(db.dados), Blocks(ordem, BlocoEstacao(db.estacoes, anos, Anual, fetch, p)))
  {
    pedidos, ordem := [], [];
    var cadastro := CadastrarEstacoes(db, catalogo, p);
    match cadastro
    case FalhaCatalogo(erro) =>
      return ErroEstacoes(erro), [], [];
    case EntradaInvalida(posicao) =>
      return Abortada(posicao), [], [];
    case Cadastrado(_) =>
    var anos := SortedList(AnosDeSafra(db.safras));
    if anos == [] {
      return SemAnos, [], [];
    }
    pedidos, ordem := ImportarDadosDiarios(db, Anual, fetch, p);
    r := Finalizada;
  }
}
