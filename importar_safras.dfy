/** The `importar_safras` management command: download the Conab series, transform it, and
    reload the crop table inside one transaction — delete every row, then upsert the
    transformed rows one by one, counting the keys the upserts create. */
module ImportarSafras {
  import opened Wrappers
  import opened Text
  import opened Sequences
  import opened Models
  import opened Http
  import opened ProcessaConab
  import opened Store

  /** The natural key a transformed row is stored under. The command strips the product name
      before using it; the Celery task does not. */
  function ChaveDe(r: CropRow, strip: bool): SafraKey {
    SafraKey(r.ano, r.uf, if strip then Strip(r.produto) else r.produto)
  }

  function MedidasDe(r: CropRow): Medidas {
    Medidas(r.areaPlantadaHa, r.producaoToneladas, r.produtividadeKgHa)
  }

  /** The distinct keys among the rows. */
  function Chaves(rows: seq<CropRow>, strip: bool): set<SafraKey> {
    set i | 0 <= i < |rows| :: ChaveDe(rows[i], strip)
  }

  /** The crop table after emptying it and upserting `rows` in order. */
  function TabelaCarregada(rows: seq<CropRow>, strip: bool): SafraTable {
    if rows == [] then map[]
    else
      var n := |rows| - 1;
      TabelaCarregada(rows[..n], strip)[ChaveDe(rows[n], strip) := MedidasDe(rows[n])]
  }

  /** The loaded table holds exactly the distinct keys of the rows. */
  lemma {:induction false} CarregadaChaves(rows: seq<CropRow>, strip: bool)
    ensures TabelaCarregada(rows, strip).Keys == Chaves(rows, strip)
  {
    if rows != [] {
      var n := |rows| - 1;
      CarregadaChaves(rows[..n], strip);
      ChavesMais(rows[..n], rows[n], strip);
      assert rows[..n] + [rows[n]] == rows;
    }
  }

  /** One more row adds its key to the distinct keys. */
  lemma ChavesMais(rows: seq<CropRow>, r: CropRow, strip: bool)
    ensures Chaves(rows + [r], strip) == Chaves(rows, strip) + {ChaveDe(r, strip)}
  {
    var s := rows + [r];
    forall k | k in Chaves(s, strip)
      ensures k in Chaves(rows, strip) + {ChaveDe(r, strip)}
    {
      var i :| 0 <= i < |s| && ChaveDe(s[i], strip) == k;
      if i < |rows| {
        assert s[i] == rows[i];
      }
    }
    forall k | k in Chaves(rows, strip)
      ensures k in Chaves(s, strip)
    {
      var i :| 0 <= i < |rows| && ChaveDe(rows[i], strip) == k;
      assert s[i] == rows[i];
    }
    assert s[|rows|] == r;
  }

  /** The number of rows the loaded table holds is the number of distinct keys among the rows:
      since the table was emptied first, this is also how many upserts created a row. */
  lemma CarregadaTamanho(rows: seq<CropRow>, strip: bool)
    ensures |TabelaCarregada(rows, strip)| == |Chaves(rows, strip)|
  {
    CarregadaChaves(rows, strip);
    assert |TabelaCarregada(rows, strip).Keys| == |TabelaCarregada(rows, strip)|;
  }

  /** Every key holds the measures of the last row with that key. */
  lemma {:induction false} CarregadaUltimaVence(rows: seq<CropRow>, strip: bool, k: SafraKey)
    requires k in TabelaCarregada(rows, strip)
    ensures exists j :: 0 <= j < |rows| && ChaveDe(rows[j], strip) == k
                        && TabelaCarregada(rows, strip)[k] == MedidasDe(rows[j])
                        && forall i :: j < i < |rows| ==> ChaveDe(rows[i], strip) != k
  {
    var n := |rows| - 1;
    if ChaveDe(rows[n], strip) == k {
      assert TabelaCarregada(rows, strip)[k] == MedidasDe(rows[n]);
    } else {
      var pre := rows[..n];
      assert k in TabelaCarregada(pre, strip);
      CarregadaUltimaVence(pre, strip, k);
      var j :| 0 <= j < |pre| && ChaveDe(pre[j], strip) == k
               && TabelaCarregada(pre, strip)[k] == MedidasDe(pre[j])
               && forall i :: j < i < |pre| ==> ChaveDe(pre[i], strip) != k;
      assert pre[j] == rows[j];
      assert forall i :: j < i < |rows| ==> ChaveDe(rows[i], strip) != k by {
        forall i | j < i < |rows| ensures ChaveDe(rows[i], strip) != k {
          if i < n {
            assert pre[i] == rows[i];
          }
        }
      }
    }
  }

  /** When no product name has surrounding whitespace, stripping changes nothing: the command
      and the task load the same table. */
  lemma {:induction false} StripIrrelevante(rows: seq<CropRow>)
    requires forall i :: 0 <= i < |rows| ==> Trimmed(rows[i].produto)
    ensures TabelaCarregada(rows, true) == TabelaCarregada(rows, false)
  {
    if rows != [] {
      var n := |rows| - 1;
      StripIrrelevante(rows[..n]);
      StripTrimmed(rows[n].produto);
    }
  }

  /** With surrounding whitespace the two differ: a product name and the same name with a
      trailing blank, for the same year and state, are one key for the command and two keys
      for the task. */
  lemma StripUnificaChaves(a: CropRow, espaco: char)
    requires a.produto != [] && Trimmed(a.produto) && IsSpace(espaco)
    ensures var rows := [a, a.(produto := a.produto + [espaco])];
            |TabelaCarregada(rows, true)| == 1 && |TabelaCarregada(rows, false)| == 2
  {
    var b := a.(produto := a.produto + [espaco]);
    ChavesComEspaco(a, espaco);
    CarregadaPar(a, b, true);
    CarregadaPar(a, b, false);
    var m := map[ChaveDe(a, false) := MedidasDe(a)];
    assert |m| == 1;
  }

  /** Loading two rows. */
  lemma CarregadaPar(a: CropRow, b: CropRow, strip: bool)
    ensures TabelaCarregada([a, b], strip)
            == map[ChaveDe(a, strip) := MedidasDe(a)][ChaveDe(b, strip) := MedidasDe(b)]
  {
    CarregadaMais([], a, strip);
    CarregadaMais([a], b, strip);
    assert [] + [a] == [a] && [a] + [b] == [a, b];
  }

  /** Loading one more row updates its key. */
  lemma CarregadaMais(rows: seq<CropRow>, r: CropRow, strip: bool)
    ensures TabelaCarregada(rows + [r], strip) == TabelaCarregada(rows, strip)[ChaveDe(r, strip) := MedidasDe(r)]
  {
    assert (rows + [r])[..|rows|] == rows;
  }

  /** Loading the rows up to `i` inclusive is loading those before it, then row `i`. */
  lemma CarregadaPasso(rows: seq<CropRow>, i: nat, strip: bool)
    requires i < |rows|
    ensures TabelaCarregada(rows[..i + 1], strip)
            == TabelaCarregada(rows[..i], strip)[ChaveDe(rows[i], strip) := MedidasDe(rows[i])]
  {
    assert rows[..i + 1][..i] == rows[..i];
  }

  lemma ChavesComEspaco(a: CropRow, espaco: char)
    requires a.produto != [] && Trimmed(a.produto) && IsSpace(espaco)
    ensures var b := a.(produto := a.produto + [espaco]);
            ChaveDe(b, true) == ChaveDe(a, true) && ChaveDe(b, false) != ChaveDe(a, false)
  {
    var b := a.(produto := a.produto + [espaco]);
    StripTrailingSpace(a.produto, espaco);
    StripTrimmed(a.produto);
    assert |b.produto| != |a.produto|;
  }

  /** The row at which the load stops: the first whose key the database refuses. */
  function PrimeiraRecusada(rows: seq<CropRow>, strip: bool): (k: nat)
    ensures k <= |rows|
    ensures forall j :: 0 <= j < k ==> FitsColumns(ChaveDe(rows[j], strip))
    ensures k < |rows| ==> !FitsColumns(ChaveDe(rows[k], strip))
  {
    FirstFailing(rows, Aceitas(strip))
  }

  /** The rows whose key fits the table's columns. */
  function Aceitas(strip: bool): CropRow -> bool {
    (r: CropRow) => FitsColumns(ChaveDe(r, strip))
  }

  /** How a Conab import ended. */
  datatype Resultado =
    | ErroDownload(falha: RequestException)   // the download failed; nothing else ran
    | ErroTransformacao(motivo: TransformError)  // the transform raised
    | ErroCarga(linha: nat)                    // the database refused this row of the load
    | Concluido(registrosCriados: nat)         // the load finished

  /** The load loop: upserts `rows[i..]` into the table, returning how many keys were created,
      or stopping at the first row whose key the database refuses. The table then holds the
      rows before it; undoing them is the caller's business. */
  method Carrega(db: Database, rows: seq<CropRow>, strip: bool) returns (ok: bool, criados: nat)
    requires db.Valid() && db.safras == map[]
    modifies db`safras
    ensures db.Valid()
    ensures ok <==> PrimeiraRecusada(rows, strip) == |rows|
    ensures db.safras == TabelaCarregada(rows[..PrimeiraRecusada(rows, strip)], strip)
    ensures ok ==> criados == |Chaves(rows, strip)|
  {
    var i := 0;
    criados := 0;
    ghost var k := PrimeiraRecusada(rows, strip);
    while i < |rows|
      invariant 0 <= i <= k
      invariant db.Valid()
      invariant db.safras == TabelaCarregada(rows[..i], strip)
      invariant criados == |TabelaCarregada(rows[..i], strip)|
    {
      var chave := ChaveDe(rows[i], strip);
      var outcome := db.UpsertSafra(chave, MedidasDe(rows[i]));
      if outcome == Rejected {
        assert i == k;
        return false, criados;
      }
      CarregadaPasso(rows, i, strip);
      if outcome == Created {
        criados := criados + 1;
      }
      i := i + 1;
    }
    assert i == k == |rows|;
    assert rows[..|rows|] == rows;
    CarregadaTamanho(rows, strip);
    ok := true;
  }

  /** `Command.handle`. A failed download returns before anything else. The transform runs
      outside any handler, so when it raises the command ends with the table untouched. The
      load runs in `transaction.atomic`: it either finishes, leaving exactly the loaded table
      and reporting the number of distinct keys as created, or is rolled back entirely. */
  method Handle(db: Database, download: Response<seq<ConabRow>>) returns (r: Resultado)
    requires db.Valid()
    modifies db`safras
    ensures db.Valid()
    ensures download.Failure? ==> r == ErroDownload(download.error) && db.safras == old(db.safras)
    ensures download.Success? && Transform(download.value).Failure? ==>
              r == ErroTransformacao(Transform(download.value).error) && db.safras == old(db.safras)
    ensures download.Success? && Transform(download.value).Success? ==>
              var rows := Transform(download.value).value;
              var k := PrimeiraRecusada(rows, true);
              if k == |rows| then
                r == Concluido(|Chaves(rows, true)|) && db.safras == TabelaCarregada(rows, true)
              else
                r == ErroCarga(k) && db.safras == old(db.safras)
  {
    if download.Failure? {
      return ErroDownload(download.error);
    }
    var transformado := Transform(download.value);
    if transformado.Failure? {
      return ErroTransformacao(transformado.error);
    }
    var rows := transformado.value;
    var snapshot := db.safras;
    db.DeleteAllSafras();
    var ok, criados := Carrega(db, rows, true);
    if ok {
      assert rows[..|rows|] == rows;
      r := Concluido(criados);
    } else {
      db.RollbackSafras(snapshot);
      r := ErroCarga(PrimeiraRecusada(rows, true));
    }
  }
}
