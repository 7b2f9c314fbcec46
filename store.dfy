/** The in-memory stand-in for the database behind the Django ORM: one map per table, keyed by
    the table's natural key, so that `update_or_create` is a map update and `delete()` empties
    a map. Observation writes are also described as values (`Write`), so that what a whole
    import does to the observation table can be stated as the writes it makes, in order. */
module Store {
  import opened Wrappers
  import opened Models
  import opened Sequences

  /** One `update_or_create` on the observation table.
      `Overwrite` sets all four measures (the ground-station import passes all four as
      `defaults`); `Climate` sets the two temperatures and the precipitation and leaves the
      humidity of an existing row as it was (the satellite import passes only those three). */
  datatype Write =
    | Overwrite(key: DadoKey, dado: Dado)
    | Climate(key: DadoKey, temperaturaMaxima: real, temperaturaMinima: real, precipitacao: real)

  function Get<K, V>(m: map<K, V>, k: K): Option<V> {
    if k in m then Some(m[k]) else None
  }

  /** The observation a write leaves under its key, given the row that was there before. */
  function Written(w: Write, before: Option<Dado>): (d: Dado)
    ensures w.Overwrite? ==> d == w.dado
    ensures w.Climate? ==> d.temperaturaMaximaC == Some(w.temperaturaMaxima)
                           && d.temperaturaMinimaC == Some(w.temperaturaMinima)
                           && d.precipitacaoMm == Some(w.precipitacao)
    ensures w.Climate? ==> d.umidadeMediaPorc == (if before.Some? then before.value.umidadeMediaPorc else None)
  {
    match w
    case Overwrite(_, dado) => dado
    case Climate(_, tmax, tmin, prec) =>
      var umidade := if before.Some? then before.value.umidadeMediaPorc else None;
      Dado(Some(prec), Some(tmax), Some(tmin), umidade)
  }

  type DadoTable = map<DadoKey, Dado>

  /** The observation table after one write: only the written key changes. */
  function ApplyWrite(m: DadoTable, w: Write): (r: DadoTable)
    ensures r.Keys == m.Keys + {w.key}
    ensures r[w.key] == Written(w, Get(m, w.key))
    ensures forall k :: k in m && k != w.key ==> r[k] == m[k]
  {
    m[w.key := Written(w, Get(m, w.key))]
  }

  /** The observation table after the writes `ws`, made in order. */
  function ApplyWrites(m: DadoTable, ws: seq<Write>): DadoTable {
    if ws == [] then m else ApplyWrite(ApplyWrites(m, ws[..|ws| - 1]), ws[|ws| - 1])
  }

  /** Making `a` and then `b` is making `a + b`. */
  lemma {:induction false} ApplyWritesAppend(m: DadoTable, a: seq<Write>, b: seq<Write>)
    ensures ApplyWrites(m, a + b) == ApplyWrites(ApplyWrites(m, a), b)
  {
    if b != [] {
      var n := |b| - 1;
      assert (a + b)[..|a + b| - 1] == a + b[..n];
      ApplyWritesAppend(m, a, b[..n]);
    } else {
      assert a + b == a;
    }
  }

  /** Writes to other keys leave a key as it was. */
  lemma {:induction false} ApplyWritesElsewhere(m: DadoTable, ws: seq<Write>, k: DadoKey)
    requires forall i :: 0 <= i < |ws| ==> ws[i].key != k
    ensures Get(ApplyWrites(m, ws), k) == Get(m, k)
  {
    if ws != [] {
      ApplyWritesElsewhere(m, ws[..|ws| - 1], k);
    }
  }

  /** What the writes leave under a key depends only on what was under that key before. */
  lemma {:induction false} ApplyWritesLocal(m1: DadoTable, m2: DadoTable, ws: seq<Write>, k: DadoKey)
    requires Get(m1, k) == Get(m2, k)
    ensures Get(ApplyWrites(m1, ws), k) == Get(ApplyWrites(m2, ws), k)
  {
    if ws != [] {
      ApplyWritesLocal(m1, m2, ws[..|ws| - 1], k);
    }
  }

  /** Every write in `block(o)` is a write to an observation of `o`. */
  ghost predicate Owned(block: Owner -> seq<Write>) {
    forall o, i :: 0 <= i < |block(o)| ==> block(o)[i].key.owner == o
  }

  /** The writes an import makes when it handles the owners in `order`, each owner's writes
      together. */
  function Blocks(order: seq<Owner>, block: Owner -> seq<Write>): seq<Write> {
    if order == [] then [] else Blocks(order[..|order| - 1], block) + block(order[|order| - 1])
  }

  /** Under a key, the result of handling `order` is what the key's own owner's writes leave
      there, or the old row if that owner is not in `order`. */
  lemma {:induction false} BlocksAt(m: DadoTable, order: seq<Owner>, block: Owner -> seq<Write>, k: DadoKey)
    requires Owned(block) && Distinct(order)
    ensures Get(ApplyWrites(m, Blocks(order, block)), k)
            == if k.owner in order then Get(ApplyWrites(m, block(k.owner)), k) else Get(m, k)
  {
    if order != [] {
      var n := |order| - 1;
      var pre := order[..n];
      var last := order[n];
      assert Distinct(pre);
      ApplyWritesAppend(m, Blocks(pre, block), block(last));
      BlocksAt(m, pre, block, k);
      assert k.owner in order <==> k.owner in pre || k.owner == last;
      if k.owner == last {
        assert last !in pre;
        ApplyWritesLocal(ApplyWrites(m, Blocks(pre, block)), m, block(last), k);
      } else {
        ApplyWritesElsewhere(ApplyWrites(m, Blocks(pre, block)), block(last), k);
      }
    }
  }

  /** The order in which the owners are handled does not change the resulting table: two
      listings of the same owners, each without repeats, give the same table. */
  lemma OrderIrrelevant(m: DadoTable, o1: seq<Owner>, o2: seq<Owner>, block: Owner -> seq<Write>)
    requires Owned(block) && Distinct(o1) && Distinct(o2)
    requires forall o :: o in o1 <==> o in o2
    ensures ApplyWrites(m, Blocks(o1, block)) == ApplyWrites(m, Blocks(o2, block))
  {
    var r1 := ApplyWrites(m, Blocks(o1, block));
    var r2 := ApplyWrites(m, Blocks(o2, block));
    forall k
      ensures Get(r1, k) == Get(r2, k)
    {
      BlocksAt(m, o1, block, k);
      BlocksAt(m, o2, block, k);
    }
    assert forall k :: k in r1 <==> Get(r1, k).Some?;
    assert forall k :: k in r2 <==> Get(r2, k).Some?;
    assert r1.Keys == r2.Keys;
    forall k | k in r1
      ensures r1[k] == r2[k]
    {
      assert Get(r1, k) == Get(r2, k);
    }
  }

  /** What an upsert on the crop table did. */
  datatype SaveOutcome = Created | Updated | Rejected

  /** The database: the crop table (`SafraAnual`), the station table (`EstacaoMeteorologica`,
      keyed by `codigo`), the locality table (`Localidade`, keyed by `nome`) and the daily
      observation table (`DadoMeteorologicoDiario`, keyed by owner and date). */
  class Database {
    var safras: SafraTable
    var estacoes: map<string, Estacao>
    var localidades: map<string, Coordenadas>
    var dados: DadoTable

    /** Every stored crop key fits its columns. */
    ghost predicate Valid()
      reads this
    {
      forall k :: k in safras ==> FitsColumns(k)
    }

    constructor ()
      ensures Valid()
      ensures safras == map[] && estacoes == map[] && localidades == map[] && dados == map[]
    {
      safras, estacoes, localidades, dados := map[], map[], map[], map[];
    }

    /** `SafraAnual.objects.all().delete()`. */
    method DeleteAllSafras()
      modifies this`safras
      ensures Valid()
      ensures safras == map[]
    {
      safras := map[];
    }

    /** `SafraAnual.objects.update_or_create(ano=…, uf=…, produto=…, defaults=…)`. The row is
        refused when its key does not fit the columns; otherwise the key now holds `m`, and the
        outcome says whether the key was new. */
    method UpsertSafra(k: SafraKey, m: Medidas) returns (outcome: SaveOutcome)
      requires Valid()
      modifies this`safras
      ensures Valid()
      ensures outcome == Rejected <==> !FitsColumns(k)
      ensures outcome == Created <==> FitsColumns(k) && k !in old(safras)
      ensures safras == if outcome == Rejected then old(safras) else old(safras)[k := m]
    {
      if !FitsColumns(k) {
        outcome := Rejected;
      } else {
        outcome := if k in safras then Updated else Created;
        safras := safras[k := m];
      }
    }

    /** A rolled-back transaction: the crop table is back to the snapshot taken when the
        transaction began. */
    method RollbackSafras(snapshot: SafraTable)
      requires forall k :: k in snapshot ==> FitsColumns(k)
      modifies this`safras
      ensures Valid()
      ensures safras == snapshot
    {
      safras := snapshot;
    }

    /** `EstacaoMeteorologica.objects.update_or_create(codigo=…, defaults=…)`. */
    method UpsertEstacao(codigo: string, e: Estacao)
      modifies this`estacoes
      ensures estacoes == old(estacoes)[codigo := e]
    {
      estacoes := estacoes[codigo := e];
    }

    /** `Localidade.objects.update_or_create(nome=…, defaults=…)`. */
    method UpsertLocalidade(nome: string, c: Coordenadas)
      modifies this`localidades
      ensures localidades == old(localidades)[nome := c]
    {
      localidades := localidades[nome := c];
    }

    /** `DadoMeteorologicoDiario.objects.update_or_create(…)` for one observation. */
    method SaveDado(w: Write)
      modifies this`dados
      ensures dados == ApplyWrite(old(dados), w)
    {
      dados := ApplyWrite(dados, w);
    }

    /** A rolled-back transaction on the observation table. */
    method RollbackDados(snapshot: DadoTable)
      modifies this`dados
      ensures dados == snapshot
    {
      dados := snapshot;
    }
  }
}
