/**
 * The three persisted tables (`sorteos`, `participantes`, `asignaciones`) as
 * sequences of rows, and the pure operations the pages perform on them:
 * key lookups (`find`, `.eq(...)`), filtering (`filter`, `.in(...)`),
 * upsert keyed on `participante_id`, and the two bulk updates.
 * Server-generated columns (row ids of draws and assignments, timestamps of
 * creation) are not part of the rows.
 */
module Tables {
  import opened Wrappers

  type Id = string

  datatype Estado = Pendiente | Completado

  /** One draw. `fechaSorteo` is set when the draw is marked `completado`. */
  datatype Sorteo = Sorteo(id: Id, estado: Estado, fechaSorteo: Option<string>)

  /** One member of a draw; `tokenAcceso` is the private link credential. */
  datatype Participante = Participante(id: Id, sorteoId: Id, nombre: string, tokenAcceso: string)

  /** One gift edge `participanteId -> amigoAsignadoId`. */
  datatype Asignacion = Asignacion(participanteId: Id, amigoAsignadoId: Id, notificado: bool)

  /** The payload of the upsert: the two columns the draw writes. */
  datatype AsignacionRow = AsignacionRow(participanteId: Id, amigoAsignadoId: Id)

  /** Fewest participants a draw is run with; both the participants page and the draw page check it. */
  const MinParticipantes: nat := 3

  /** The pages' `if (!currentSorteoId)` read the other way: a draw id is present only when it is
      truthy in JavaScript, so neither `null` nor the empty string counts as one. */
  predicate HasSorteo(sid: Option<Id>): (b: bool)
    ensures !b <==> sid == None || sid == Some([])
  {
    sid.Some? && sid.value != []
  }

  // ---------------------------------------------------------------- columns

  function Ids(ps: seq<Participante>): (r: seq<Id>)
    ensures |r| == |ps| && forall i :: 0 <= i < |ps| ==> r[i] == ps[i].id
  {
    seq(|ps|, i requires 0 <= i < |ps| => ps[i].id)
  }

  function Tokens(ps: seq<Participante>): (r: seq<string>)
    ensures |r| == |ps| && forall i :: 0 <= i < |ps| ==> r[i] == ps[i].tokenAcceso
  {
    seq(|ps|, i requires 0 <= i < |ps| => ps[i].tokenAcceso)
  }

  /** The `participante_id` column of the assignment table. */
  function Keys(t: seq<Asignacion>): (r: seq<Id>)
    ensures |r| == |t| && forall i :: 0 <= i < |t| ==> r[i] == t[i].participanteId
  {
    seq(|t|, i requires 0 <= i < |t| => t[i].participanteId)
  }

  function RowKeys(rows: seq<AsignacionRow>): (r: seq<Id>)
    ensures |r| == |rows| && forall i :: 0 <= i < |rows| ==> r[i] == rows[i].participanteId
  {
    seq(|rows|, i requires 0 <= i < |rows| => rows[i].participanteId)
  }

  function RowTargets(rows: seq<AsignacionRow>): (r: seq<Id>)
    ensures |r| == |rows| && forall i :: 0 <= i < |rows| ==> r[i] == rows[i].amigoAsignadoId
  {
    seq(|rows|, i requires 0 <= i < |rows| => rows[i].amigoAsignadoId)
  }

  /** No value occurs twice: the uniqueness constraint of a key column. */
  predicate Distinct<T(==)>(s: seq<T>) {
    forall i, j :: 0 <= i < j < |s| ==> s[i] != s[j]
  }

  // ---------------------------------------------------------------- lookups

  /** `participantes.find(p => p.id === id)`: the first participant with that id. */
  function FindById(ps: seq<Participante>, id: Id): (r: Option<Participante>)
    ensures r.None? <==> id !in Ids(ps)
    ensures r.Some? ==> r.value in ps && r.value.id == id
    ensures r.Some? ==> exists i :: 0 <= i < |ps| && ps[i] == r.value && id !in Ids(ps[..i])
  {
    if ps == [] then None
    else if ps[0].id == id then (assert ps[..0] == []; Some(ps[0]))
    else
      var r := FindById(ps[1..], id);
      assert Ids(ps) == [ps[0].id] + Ids(ps[1..]);
      if r.Some? then
        var i :| 0 <= i < |ps| - 1 && ps[1..][i] == r.value && id !in Ids(ps[1..][..i]);
        assert Ids(ps[..i + 1]) == [ps[0].id] + Ids(ps[1..][..i]);
        r
      else r
  }

  /** The participant whose `token_acceso` equals `token`, if any. */
  function FindByToken(ps: seq<Participante>, token: string): (r: Option<Participante>)
    ensures r.None? <==> token !in Tokens(ps)
    ensures r.Some? ==> r.value in ps && r.value.tokenAcceso == token
  {
    if ps == [] then None
    else if ps[0].tokenAcceso == token then Some(ps[0])
    else
      assert Tokens(ps) == [ps[0].tokenAcceso] + Tokens(ps[1..]);
      FindByToken(ps[1..], token)
  }

  /** `asignaciones.find(a => a.participante_id === pid)`: the first assignment of `pid`. */
  function LookupAsignacion(t: seq<Asignacion>, pid: Id): (r: Option<Asignacion>)
    ensures r.None? <==> pid !in Keys(t)
    ensures r.Some? ==> r.value in t && r.value.participanteId == pid
    ensures r.Some? ==> exists i :: 0 <= i < |t| && t[i] == r.value && pid !in Keys(t[..i])
  {
    if t == [] then None
    else if t[0].participanteId == pid then (assert t[..0] == []; Some(t[0]))
    else
      var r := LookupAsignacion(t[1..], pid);
      assert Keys(t) == [t[0].participanteId] + Keys(t[1..]);
      if r.Some? then
        var i :| 0 <= i < |t| - 1 && t[1..][i] == r.value && pid !in Keys(t[1..][..i]);
        assert Keys(t[..i + 1]) == [t[0].participanteId] + Keys(t[1..][..i]);
        r
      else r
  }

  /** `getAmigoAsignado`: the participant that `pid`'s assignment points at. */
  function AmigoAsignado(asignaciones: seq<Asignacion>, ps: seq<Participante>, pid: Id): (r: Option<Participante>)
    ensures LookupAsignacion(asignaciones, pid).None? ==> r.None?
    ensures r.Some? <==> pid in Keys(asignaciones) && LookupAsignacion(asignaciones, pid).value.amigoAsignadoId in Ids(ps)
    ensures r.Some? ==> r.value in ps
    ensures r.Some? ==> r.value.id == LookupAsignacion(asignaciones, pid).value.amigoAsignadoId
  {
    match LookupAsignacion(asignaciones, pid)
    case None => None
    case Some(a) => FindById(ps, a.amigoAsignadoId)
  }

  /** `getAmigoAsignado` returns the first listed participant carrying the target id. */
  lemma AmigoAsignadoFirst(asignaciones: seq<Asignacion>, ps: seq<Participante>, pid: Id)
    ensures var r := AmigoAsignado(asignaciones, ps, pid);
      r.Some? ==> exists i :: 0 <= i < |ps| && ps[i] == r.value && r.value.id !in Ids(ps[..i])
  {
  }

  /** With unique ids, the lookup by id finds exactly the participant carrying it. */
  lemma {:induction false} FindByIdUnique(ps: seq<Participante>, p: Participante)
    requires Distinct(Ids(ps)) && p in ps
    ensures FindById(ps, p.id) == Some(p)
  {
    if ps[0] != p {
      var k :| 1 <= k < |ps| && ps[k] == p;
      assert ps[0].id != p.id by {
        assert Ids(ps)[0] != Ids(ps)[k];
      }
      assert ps[1..][k - 1] == p;
      assert Distinct(Ids(ps[1..])) by {
        forall i, j | 0 <= i < j < |ps| - 1 ensures Ids(ps[1..])[i] != Ids(ps[1..])[j] {
          assert Ids(ps)[i + 1] != Ids(ps)[j + 1];
        }
      }
      FindByIdUnique(ps[1..], p);
    }
  }

  /** With unique tokens, the lookup by token finds exactly the participant holding it. */
  lemma {:induction false} FindByTokenUnique(ps: seq<Participante>, p: Participante)
    requires Distinct(Tokens(ps)) && p in ps
    ensures FindByToken(ps, p.tokenAcceso) == Some(p)
  {
    if ps[0] != p {
      var k :| 1 <= k < |ps| && ps[k] == p;
      assert ps[0].tokenAcceso != p.tokenAcceso by {
        assert Tokens(ps)[0] != Tokens(ps)[k];
      }
      assert ps[1..][k - 1] == p;
      assert Distinct(Tokens(ps[1..])) by {
        forall i, j | 0 <= i < j < |ps| - 1 ensures Tokens(ps[1..])[i] != Tokens(ps[1..])[j] {
          assert Tokens(ps)[i + 1] != Tokens(ps)[j + 1];
        }
      }
      FindByTokenUnique(ps[1..], p);
    }
  }

  /** With unique keys, the lookup by key finds exactly the row carrying it. */
  lemma {:induction false} LookupAsignacionUnique(t: seq<Asignacion>, a: Asignacion)
    requires Distinct(Keys(t)) && a in t
    ensures LookupAsignacion(t, a.participanteId) == Some(a)
  {
    if t[0] != a {
      var k :| 1 <= k < |t| && t[k] == a;
      assert t[0].participanteId != a.participanteId by {
        assert Keys(t)[0] != Keys(t)[k];
      }
      assert t[1..][k - 1] == a;
      assert Distinct(Keys(t[1..])) by {
        forall i, j | 0 <= i < j < |t| - 1 ensures Keys(t[1..])[i] != Keys(t[1..])[j] {
          assert Keys(t)[i + 1] != Keys(t)[j + 1];
        }
      }
      LookupAsignacionUnique(t[1..], a);
    }
  }

  // ---------------------------------------------------------------- removal

  /** `participantes.filter(p => p.id !== id)`. */
  function Without(ps: seq<Participante>, id: Id): (r: seq<Participante>)
    ensures |r| <= |ps|
    ensures forall p :: p in r <==> p in ps && p.id != id
  {
    if ps == [] then []
    else if ps[0].id == id then Without(ps[1..], id)
    else [ps[0]] + Without(ps[1..], id)
  }

  /** Filtering keeps the order: it works on each part of a list separately. */
  lemma {:induction false} WithoutConcat(a: seq<Participante>, b: seq<Participante>, id: Id)
    ensures Without(a + b, id) == Without(a, id) + Without(b, id)
  {
    if a != [] {
      assert (a + b)[1..] == a[1..] + b;
      WithoutConcat(a[1..], b, id);
    } else {
      assert a + b == b;
    }
  }

  /** Removing an id nobody has changes nothing (and raises no error). */
  lemma {:induction false} WithoutAbsent(ps: seq<Participante>, id: Id)
    requires id !in Ids(ps)
    ensures Without(ps, id) == ps
  {
    if ps != [] {
      assert Ids(ps) == [ps[0].id] + Ids(ps[1..]);
      WithoutAbsent(ps[1..], id);
    }
  }

  /** Removing the same id twice is removing it once. */
  lemma WithoutIdempotent(ps: seq<Participante>, id: Id)
    ensures Without(Without(ps, id), id) == Without(ps, id)
  {
    var r := Without(ps, id);
    assert forall i :: 0 <= i < |r| ==> r[i] in r;
    WithoutAbsent(r, id);
  }

  /** With unique ids, removing a present participant shortens the list by exactly one. */
  lemma {:induction false} WithoutOnePresent(ps: seq<Participante>, id: Id)
    requires Distinct(Ids(ps)) && id in Ids(ps)
    ensures |Without(ps, id)| == |ps| - 1
  {
    assert Ids(ps) == [ps[0].id] + Ids(ps[1..]);
    assert Distinct(Ids(ps[1..])) by {
      forall i, j | 0 <= i < j < |ps| - 1 ensures Ids(ps[1..])[i] != Ids(ps[1..])[j] {
        assert Ids(ps)[i + 1] != Ids(ps)[j + 1];
      }
    }
    if ps[0].id == id {
      assert id !in Ids(ps[1..]) by {
        forall j | 0 <= j < |ps| - 1 ensures Ids(ps[1..])[j] != id {
          assert Ids(ps)[0] != Ids(ps)[j + 1];
        }
      }
      WithoutAbsent(ps[1..], id);
    } else {
      WithoutOnePresent(ps[1..], id);
    }
  }

  // ---------------------------------------------------------------- one draw's participants

  /** `.from('participantes').select('*').eq('sorteo_id', sid)`: the rows of one draw, in table order. */
  function OfSorteo(ps: seq<Participante>, sid: Id): (r: seq<Participante>)
    ensures |r| <= |ps|
    ensures forall p :: p in r <==> p in ps && p.sorteoId == sid
  {
    if ps == [] then []
    else if ps[0].sorteoId == sid then [ps[0]] + OfSorteo(ps[1..], sid)
    else OfSorteo(ps[1..], sid)
  }

  /** A row inserted into draw `sid` shows up last among that draw's rows. */
  lemma {:induction false} OfSorteoAppend(ps: seq<Participante>, p: Participante, sid: Id)
    ensures OfSorteo(ps + [p], sid) == OfSorteo(ps, sid) + (if p.sorteoId == sid then [p] else [])
  {
    if ps == [] {
      assert ps + [p] == [p];
    } else {
      assert (ps + [p])[1..] == ps[1..] + [p];
      OfSorteoAppend(ps[1..], p, sid);
    }
  }

  /** Deleting by id and selecting by draw commute. */
  lemma {:induction false} OfSorteoWithout(ps: seq<Participante>, sid: Id, id: Id)
    ensures OfSorteo(Without(ps, id), sid) == Without(OfSorteo(ps, sid), id)
  {
    if ps != [] {
      OfSorteoWithout(ps[1..], sid, id);
    }
  }

  // ---------------------------------------------------------------- upsert

  /** Upsert of one row keyed on `participante_id`: the first row with that key gets the
      new target (its `notificado` flag is kept), and a key not yet present gets a new row
      with `notificado = false`, appended. */
  function UpsertOne(t: seq<Asignacion>, row: AsignacionRow): (r: seq<Asignacion>)
    ensures |t| <= |r| <= |t| + 1
    ensures forall i :: 0 <= i < |t| && t[i].participanteId != row.participanteId ==> r[i] == t[i]
  {
    if t == [] then [Asignacion(row.participanteId, row.amigoAsignadoId, false)]
    else if t[0].participanteId == row.participanteId then [t[0].(amigoAsignadoId := row.amigoAsignadoId)] + t[1..]
    else [t[0]] + UpsertOne(t[1..], row)
  }

  /** `.upsert(rows, { onConflict: 'participante_id' })`, row by row in batch order. */
  function Upsert(t: seq<Asignacion>, rows: seq<AsignacionRow>): (r: seq<Asignacion>)
    ensures |t| <= |r| <= |t| + |rows|
    ensures forall i :: 0 <= i < |t| && t[i].participanteId !in RowKeys(rows) ==> r[i] == t[i]
    decreases |rows|
  {
    if rows == [] then t
    else
      assert RowKeys(rows) == [rows[0].participanteId] + RowKeys(rows[1..]);
      Upsert(UpsertOne(t, rows[0]), rows[1..])
  }

  /** The key column after one upsert: unchanged when the key was there, one key appended otherwise. */
  lemma {:induction false} UpsertOneKeys(t: seq<Asignacion>, row: AsignacionRow)
    ensures Keys(UpsertOne(t, row)) == if row.participanteId in Keys(t) then Keys(t) else Keys(t) + [row.participanteId]
  {
    if t != [] {
      assert Keys(t) == [t[0].participanteId] + Keys(t[1..]);
      if t[0].participanteId != row.participanteId {
        UpsertOneKeys(t[1..], row);
        assert Keys(UpsertOne(t, row)) == [t[0].participanteId] + Keys(UpsertOne(t[1..], row));
      } else {
        assert Keys(UpsertOne(t, row)) == [t[0].participanteId] + Keys(t[1..]);
      }
    }
  }

  /** After one upsert, the key looked up gets the new target; every other key is untouched. */
  lemma {:induction false} UpsertOneLookup(t: seq<Asignacion>, row: AsignacionRow, k: Id)
    ensures LookupAsignacion(UpsertOne(t, row), k) ==
      if k != row.participanteId then LookupAsignacion(t, k)
      else match LookupAsignacion(t, k)
        case Some(a) => Some(a.(amigoAsignadoId := row.amigoAsignadoId))
        case None => Some(Asignacion(k, row.amigoAsignadoId, false))
  {
    if t != [] && t[0].participanteId != row.participanteId {
      UpsertOneLookup(t[1..], row, k);
      assert UpsertOne(t, row)[1..] == UpsertOne(t[1..], row);
    }
  }

  /** Upserting keeps the key column free of duplicates: a re-draw never adds a second row
      for a participant, and the keys afterwards are the old keys plus the batch's keys. */
  lemma {:induction false} UpsertKeys(t: seq<Asignacion>, rows: seq<AsignacionRow>)
    requires Distinct(Keys(t))
    ensures Distinct(Keys(Upsert(t, rows)))
    ensures forall k :: k in Keys(Upsert(t, rows)) <==> k in Keys(t) || k in RowKeys(rows)
    decreases |rows|
  {
    if rows != [] {
      var t1 := UpsertOne(t, rows[0]);
      UpsertOneKeys(t, rows[0]);
      assert Distinct(Keys(t1));
      UpsertKeys(t1, rows[1..]);
      assert RowKeys(rows) == [rows[0].participanteId] + RowKeys(rows[1..]);
    }
  }

  /** When every key of the batch is already present, the upsert adds no row at all. */
  lemma {:induction false} UpsertPresentKeys(t: seq<Asignacion>, rows: seq<AsignacionRow>)
    requires forall k :: k in RowKeys(rows) ==> k in Keys(t)
    ensures Keys(Upsert(t, rows)) == Keys(t)
    decreases |rows|
  {
    if rows != [] {
      assert RowKeys(rows) == [rows[0].participanteId] + RowKeys(rows[1..]);
      UpsertOneKeys(t, rows[0]);
      UpsertPresentKeys(UpsertOne(t, rows[0]), rows[1..]);
    }
  }

  /** After upserting a batch with distinct keys, each batch key maps to that batch row's
      target, and every key outside the batch keeps its old row. */
  lemma {:induction false} UpsertLookup(t: seq<Asignacion>, rows: seq<AsignacionRow>, k: Id)
    requires Distinct(RowKeys(rows))
    ensures k !in RowKeys(rows) ==> LookupAsignacion(Upsert(t, rows), k) == LookupAsignacion(t, k)
    ensures forall i :: 0 <= i < |rows| && rows[i].participanteId == k ==>
      LookupAsignacion(Upsert(t, rows), k).Some? &&
      LookupAsignacion(Upsert(t, rows), k).value.amigoAsignadoId == rows[i].amigoAsignadoId
    decreases |rows|
  {
    if rows != [] {
      var t1 := UpsertOne(t, rows[0]);
      var rest := rows[1..];
      assert RowKeys(rows) == [rows[0].participanteId] + RowKeys(rest);
      assert Distinct(RowKeys(rest)) by {
        forall i, j | 0 <= i < j < |rest| ensures RowKeys(rest)[i] != RowKeys(rest)[j] {
          assert RowKeys(rows)[i + 1] != RowKeys(rows)[j + 1];
        }
      }
      UpsertOneLookup(t, rows[0], k);
      UpsertLookup(t1, rest, k);
      if k == rows[0].participanteId {
        assert k !in RowKeys(rest) by {
          forall j | 0 <= j < |rest| ensures RowKeys(rest)[j] != k {
            assert RowKeys(rows)[0] != RowKeys(rows)[j + 1];
          }
        }
      } else {
        forall i | 0 <= i < |rows| && rows[i].participanteId == k
          ensures LookupAsignacion(Upsert(t, rows), k).Some? &&
            LookupAsignacion(Upsert(t, rows), k).value.amigoAsignadoId == rows[i].amigoAsignadoId
        {
          assert rest[i - 1] == rows[i];
        }
      }
    }
  }

  /** A second draw over the same participants replaces the first: no row is added, the
      keys stay unique, and every participant now points at the second draw's target. */
  lemma RedrawReplaces(t: seq<Asignacion>, first: seq<AsignacionRow>, second: seq<AsignacionRow>)
    requires Distinct(Keys(t)) && Distinct(RowKeys(second))
    requires forall k :: k in RowKeys(second) ==> k in RowKeys(first)
    ensures Keys(Upsert(Upsert(t, first), second)) == Keys(Upsert(t, first))
    ensures Distinct(Keys(Upsert(Upsert(t, first), second)))
    ensures forall i :: 0 <= i < |second| ==>
      LookupAsignacion(Upsert(Upsert(t, first), second), second[i].participanteId).Some? &&
      LookupAsignacion(Upsert(Upsert(t, first), second), second[i].participanteId).value.amigoAsignadoId
        == second[i].amigoAsignadoId
  {
    var t1 := Upsert(t, first);
    UpsertKeys(t, first);
    UpsertPresentKeys(t1, second);
    forall i | 0 <= i < |second|
      ensures LookupAsignacion(Upsert(t1, second), second[i].participanteId).Some? &&
        LookupAsignacion(Upsert(t1, second), second[i].participanteId).value.amigoAsignadoId
          == second[i].amigoAsignadoId
    {
      UpsertLookup(t1, second, second[i].participanteId);
    }
  }

  // ---------------------------------------------------------------- selections and updates

  /** `.select('*')` after the upsert: the rows whose key is one of `keys`, in table order. */
  function WithKeys(t: seq<Asignacion>, keys: seq<Id>): (r: seq<Asignacion>)
    ensures forall a :: a in r <==> a in t && a.participanteId in keys
  {
    if t == [] then []
    else if t[0].participanteId in keys then [t[0]] + WithKeys(t[1..], keys)
    else WithKeys(t[1..], keys)
  }

  /** Selecting by key does not change what a selected key looks up to. */
  lemma {:induction false} WithKeysLookup(t: seq<Asignacion>, keys: seq<Id>, k: Id)
    requires k in keys
    ensures LookupAsignacion(WithKeys(t, keys), k) == LookupAsignacion(t, k)
  {
    if t != [] {
      WithKeysLookup(t[1..], keys, k);
    }
  }

  /** `.update({ notificado: true }).in('participante_id', ids)`. */
  function MarkNotified(t: seq<Asignacion>, ids: seq<Id>): (r: seq<Asignacion>)
    ensures |r| == |t|
    ensures forall i :: 0 <= i < |t| ==>
      && r[i].participanteId == t[i].participanteId
      && r[i].amigoAsignadoId == t[i].amigoAsignadoId
      && r[i].notificado == (t[i].notificado || t[i].participanteId in ids)
  {
    seq(|t|, i requires 0 <= i < |t| => if t[i].participanteId in ids then t[i].(notificado := true) else t[i])
  }

  /** Marking as notified never changes who gives to whom, and doing it twice is doing it once. */
  lemma MarkNotifiedKeepsMapping(t: seq<Asignacion>, ids: seq<Id>, k: Id)
    ensures Keys(MarkNotified(t, ids)) == Keys(t)
    ensures LookupAsignacion(t, k).Some? ==>
      LookupAsignacion(MarkNotified(t, ids), k).Some? &&
      LookupAsignacion(MarkNotified(t, ids), k).value.amigoAsignadoId == LookupAsignacion(t, k).value.amigoAsignadoId
    ensures MarkNotified(MarkNotified(t, ids), ids) == MarkNotified(t, ids)
  {
    MarkNotifiedLookup(t, ids, k);
  }

  lemma {:induction false} MarkNotifiedLookup(t: seq<Asignacion>, ids: seq<Id>, k: Id)
    ensures LookupAsignacion(t, k).Some? ==>
      LookupAsignacion(MarkNotified(t, ids), k).Some? &&
      LookupAsignacion(MarkNotified(t, ids), k).value.amigoAsignadoId == LookupAsignacion(t, k).value.amigoAsignadoId
  {
    if t != [] && t[0].participanteId != k {
      assert MarkNotified(t, ids)[1..] == MarkNotified(t[1..], ids);
      MarkNotifiedLookup(t[1..], ids, k);
    }
  }

  /** `.update({ estado: 'completado', fecha_sorteo: now }).eq('id', id)`: every draw with
      that id is completed and stamped; the others are untouched. No matching row is no error. */
  function CompleteSorteo(ss: seq<Sorteo>, id: Id, now: string): (r: seq<Sorteo>)
    ensures |r| == |ss|
    ensures forall i :: 0 <= i < |ss| ==> r[i].id == ss[i].id
    ensures forall i :: 0 <= i < |ss| && ss[i].id == id ==> r[i].estado == Completado && r[i].fechaSorteo == Some(now)
    ensures forall i :: 0 <= i < |ss| && ss[i].id != id ==> r[i] == ss[i]
  {
    seq(|ss|, i requires 0 <= i < |ss| => if ss[i].id == id then ss[i].(estado := Completado, fechaSorteo := Some(now)) else ss[i])
  }
}
