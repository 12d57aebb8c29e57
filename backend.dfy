/**
 * The remote store reached through the Supabase client, as an object holding the
 * three tables. Each call the pages make is one method; its `fault` argument says
 * whether the network round trip fails (the client then returns an `error` and the
 * store is not touched). Constraints the schema enforces are kept as `Valid()`:
 * participant ids and access tokens are unique, and `asignaciones.participante_id`
 * is unique (the upsert's conflict target).
 */
module Backend {
  import opened Wrappers
  import opened Tables

  /** Why a call returned an error instead of data. */
  datatype DbError =
    | Transport          // the request did not complete
    | NoRows             // `.single()` found no row
    | Conflict           // a uniqueness constraint rejected the write

  class Database {
    var sorteos: seq<Sorteo>
    var participantes: seq<Participante>
    var asignaciones: seq<Asignacion>

    ghost predicate Valid()
      reads this
    {
      Distinct(Ids(participantes)) && Distinct(Tokens(participantes)) && Distinct(Keys(asignaciones))
    }

    constructor (sorteos: seq<Sorteo>, participantes: seq<Participante>, asignaciones: seq<Asignacion>)
      requires Distinct(Ids(participantes)) && Distinct(Tokens(participantes)) && Distinct(Keys(asignaciones))
      ensures Valid()
      ensures this.sorteos == sorteos && this.participantes == participantes && this.asignaciones == asignaciones
    {
      this.sorteos := sorteos;
      this.participantes := participantes;
      this.asignaciones := asignaciones;
    }

    /** `.from('participantes').insert([{ sorteo_id, nombre }]).select().single()`.
        The server picks the new row's `id` and `token_acceso` (here `newId`, `newToken`);
        the insert fails on a transport fault or when either would clash with an existing row. */
    method InsertParticipante(sorteoId: Id, nombre: string, newId: Id, newToken: string, fault: bool)
      returns (r: Result<Participante, DbError>)
      requires Valid()
      modifies this
      ensures Valid()
      ensures r.Success? <==> !fault && newId !in Ids(old(participantes)) && newToken !in Tokens(old(participantes))
      ensures r.Success? ==> r.value == Participante(newId, sorteoId, nombre, newToken)
      ensures participantes == if r.Success? then old(participantes) + [r.value] else old(participantes)
      ensures sorteos == old(sorteos) && asignaciones == old(asignaciones)
    {
      if fault {
        return Failure(Transport);
      }
      if newId in Ids(participantes) || newToken in Tokens(participantes) {
        return Failure(Conflict);
      }
      var p := Participante(newId, sorteoId, nombre, newToken);
      participantes := participantes + [p];
      assert Ids(participantes) == Ids(old(participantes)) + [newId];
      assert Tokens(participantes) == Tokens(old(participantes)) + [newToken];
      r := Success(p);
    }

    /** `.from('participantes').delete().eq('id', id)`: deleting an id that is not there is no error. */
    method DeleteParticipante(id: Id, fault: bool) returns (err: Option<DbError>)
      requires Valid()
      modifies this
      ensures Valid()
      ensures err.None? <==> !fault
      ensures participantes == if fault then old(participantes) else Without(old(participantes), id)
      ensures sorteos == old(sorteos) && asignaciones == old(asignaciones)
    {
      if fault {
        return Some(Transport);
      }
      WithoutKeepsUnique(participantes, id);
      participantes := Without(participantes, id);
      err := None;
    }

    /** `.from('participantes').select('*').eq('token_acceso', token).single()`. */
    method SelectParticipanteByToken(token: string, fault: bool) returns (r: Result<Participante, DbError>)
      ensures r.Success? <==> !fault && token in Tokens(participantes)
      ensures r.Success? ==> Some(r.value) == FindByToken(participantes, token)
    {
      if fault {
        return Failure(Transport);
      }
      r := match FindByToken(participantes, token)
        case Some(p) => Success(p)
        case None => Failure(NoRows);
    }

    /** `.from('participantes').select('*').eq('id', id).single()`. */
    method SelectParticipanteById(id: Id, fault: bool) returns (r: Result<Participante, DbError>)
      ensures r.Success? <==> !fault && id in Ids(participantes)
      ensures r.Success? ==> Some(r.value) == FindById(participantes, id)
    {
      if fault {
        return Failure(Transport);
      }
      r := match FindById(participantes, id)
        case Some(p) => Success(p)
        case None => Failure(NoRows);
    }

    /** `.from('participantes').select('*').eq('sorteo_id', sid)`: every row of the draw, none missing. */
    method SelectParticipantesBySorteo(sid: Id, fault: bool) returns (r: Result<seq<Participante>, DbError>)
      ensures r.Success? <==> !fault
      ensures r.Success? ==> r.value == OfSorteo(participantes, sid)
    {
      if fault {
        return Failure(Transport);
      }
      r := Success(OfSorteo(participantes, sid));
    }

    /** `.from('asignaciones').select('*').eq('participante_id', pid).single()`. */
    method SelectAsignacion(pid: Id, fault: bool) returns (r: Result<Asignacion, DbError>)
      ensures r.Success? <==> !fault && pid in Keys(asignaciones)
      ensures r.Success? ==> Some(r.value) == LookupAsignacion(asignaciones, pid)
    {
      if fault {
        return Failure(Transport);
      }
      r := match LookupAsignacion(asignaciones, pid)
        case Some(a) => Success(a)
        case None => Failure(NoRows);
    }

    /** `.from('asignaciones').select('*').in('participante_id', ids)`. */
    method SelectAsignacionesIn(ids: seq<Id>, fault: bool) returns (r: Result<seq<Asignacion>, DbError>)
      ensures r.Success? <==> !fault
      ensures r.Success? ==> r.value == WithKeys(asignaciones, ids)
    {
      if fault {
        return Failure(Transport);
      }
      r := Success(WithKeys(asignaciones, ids));
    }

    /** `.from('asignaciones').upsert(rows, { onConflict: 'participante_id' }).select('*')`.
        The statement is atomic: it either writes every row or none. A batch that names the
        same participant twice is rejected (one statement may not update a row twice). On
        success it returns the rows of the batch's participants as they now stand. */
    method UpsertAsignaciones(rows: seq<AsignacionRow>, fault: bool) returns (r: Result<seq<Asignacion>, DbError>)
      requires Valid()
      modifies this
      ensures Valid()
      ensures r.Success? <==> !fault && Distinct(RowKeys(rows))
      ensures asignaciones == if r.Success? then Upsert(old(asignaciones), rows) else old(asignaciones)
      ensures r.Success? ==> r.value == WithKeys(asignaciones, RowKeys(rows))
      ensures sorteos == old(sorteos) && participantes == old(participantes)
    {
      if fault {
        return Failure(Transport);
      }
      if !Distinct(RowKeys(rows)) {
        return Failure(Conflict);
      }
      UpsertKeys(asignaciones, rows);
      asignaciones := Upsert(asignaciones, rows);
      r := Success(WithKeys(asignaciones, RowKeys(rows)));
    }

    /** `.from('sorteos').update({ estado: 'completado', fecha_sorteo: now }).eq('id', id)`. */
    method CompleteSorteo(id: Id, now: string, fault: bool) returns (err: Option<DbError>)
      requires Valid()
      modifies this
      ensures Valid()
      ensures err.None? <==> !fault
      ensures sorteos == if fault then old(sorteos) else Tables.CompleteSorteo(old(sorteos), id, now)
      ensures participantes == old(participantes) && asignaciones == old(asignaciones)
    {
      if fault {
        return Some(Transport);
      }
      sorteos := Tables.CompleteSorteo(sorteos, id, now);
      err := None;
    }

    /** `.from('asignaciones').update({ notificado: true }).in('participante_id', ids)`. */
    method MarkNotified(ids: seq<Id>, fault: bool) returns (err: Option<DbError>)
      requires Valid()
      modifies this
      ensures Valid()
      ensures err.None? <==> !fault
      ensures asignaciones == if fault then old(asignaciones) else Tables.MarkNotified(old(asignaciones), ids)
      ensures sorteos == old(sorteos) && participantes == old(participantes)
    {
      if fault {
        return Some(Transport);
      }
      MarkNotifiedKeepsMapping(asignaciones, ids, "");
      asignaciones := Tables.MarkNotified(asignaciones, ids);
      err := None;
    }
  }

  /** Deleting rows keeps the id and token columns free of duplicates. */
  lemma {:induction false} WithoutKeepsUnique(ps: seq<Participante>, id: Id)
    requires Distinct(Ids(ps)) && Distinct(Tokens(ps))
    ensures Distinct(Ids(Without(ps, id))) && Distinct(Tokens(Without(ps, id)))
  {
    if ps != [] {
      assert Distinct(Ids(ps[1..])) && Distinct(Tokens(ps[1..])) by {
        forall i, j | 0 <= i < j < |ps| - 1
          ensures Ids(ps[1..])[i] != Ids(ps[1..])[j] && Tokens(ps[1..])[i] != Tokens(ps[1..])[j]
        {
          assert Ids(ps)[i + 1] != Ids(ps)[j + 1] && Tokens(ps)[i + 1] != Tokens(ps)[j + 1];
        }
      }
      WithoutKeepsUnique(ps[1..], id);
      if ps[0].id != id {
        var rest := Without(ps[1..], id);
        assert forall q :: q in rest ==> q.id != ps[0].id && q.tokenAcceso != ps[0].tokenAcceso by {
          forall q | q in rest ensures q.id != ps[0].id && q.tokenAcceso != ps[0].tokenAcceso {
            var j :| 1 <= j < |ps| && ps[j] == q;
            assert Ids(ps)[0] != Ids(ps)[j] && Tokens(ps)[0] != Tokens(ps)[j];
          }
        }
        ConsKeepsUnique(ps[0], rest);
      }
    }
  }

  lemma ConsKeepsUnique(p: Participante, rest: seq<Participante>)
    requires Distinct(Ids(rest)) && Distinct(Tokens(rest))
    requires forall q :: q in rest ==> q.id != p.id && q.tokenAcceso != p.tokenAcceso
    ensures Distinct(Ids([p] + rest)) && Distinct(Tokens([p] + rest))
  {
    assert forall i :: 0 <= i < |rest| ==> rest[i] in rest;
  }
}
