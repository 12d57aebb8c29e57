/**
 * The draw page (src/pages/Sorteo.tsx): loading the draw's participants and their
 * assignments, running the draw (guard, derangement, rows, upsert, then completing
 * the draw), marking the assignments notified, and looking up a participant's friend.
 */
module SorteoPage {
  import opened Wrappers
  import opened Tables
  import opened Backend
  import opened SessionStore
  import opened Derangement

  const MsgMinimo: string := "Se necesitan al menos 3 participantes"
  const MsgErrorSorteo: string := "Error al realizar el sorteo"
  const MsgErrorEnlaces: string := "Error al generar enlaces"
  const MsgErrorCargar: string := "Error al cargar participantes"


  /** `getAmigoAsignado` of every listed participant, in list order. */
  function Friends(asignaciones: seq<Asignacion>, ps: seq<Participante>): (r: seq<Option<Participante>>)
    ensures |r| == |ps|
    ensures forall i :: 0 <= i < |ps| ==> r[i] == AmigoAsignado(asignaciones, ps, ps[i].id)
  {
    seq(|ps|, i requires 0 <= i < |ps| => AmigoAsignado(asignaciones, ps, ps[i].id))
  }

  /** What a finished draw gives the participants: `getAmigoAsignado` finds a friend for
      every one of them, never the participant themself, and no two share a friend. */
  predicate SecretSantaAssignment(asignaciones: seq<Asignacion>, ps: seq<Participante>) {
    var f := Friends(asignaciones, ps);
    && (forall i :: 0 <= i < |ps| ==> f[i].Some? && f[i].value.id != ps[i].id)
    && (forall i, j :: 0 <= i < j < |ps| ==> f[i] != f[j])
  }

  /** Upserting the rows of a derangement `d` of `ps` makes participant `ps[i]` resolve
      to `d[i]`, both in the table and in the rows the upsert hands back. */
  lemma DrawnRowResolves(t: seq<Asignacion>, ps: seq<Participante>, d: seq<Participante>, i: nat)
    requires Distinct(Ids(ps)) && IsDerangement(ps, d) && i < |ps|
    ensures AmigoAsignado(Upsert(t, BuildRows(ps, d)), ps, ps[i].id) == Some(d[i])
    ensures AmigoAsignado(WithKeys(Upsert(t, BuildRows(ps, d)), Ids(ps)), ps, ps[i].id) == Some(d[i])
  {
    var rows := BuildRows(ps, d);
    var u := Upsert(t, rows);
    RowsAreDerangement(ps, d);
    assert rows[i].participanteId == ps[i].id && rows[i].amigoAsignadoId == d[i].id;
    UpsertLookup(t, rows, ps[i].id);
    assert Ids(ps)[i] == ps[i].id;
    WithKeysLookup(u, Ids(ps), ps[i].id);
    assert d[i] in multiset(ps);
    FindByIdUnique(ps, d[i]);
  }

  /** A table under which each `ps[i]` resolves to `d[i]`, for a `d` with no fixed point and
      no repeated entry, is a Secret Santa assignment. */
  lemma ResolvingToDerangement(asignaciones: seq<Asignacion>, ps: seq<Participante>, d: seq<Participante>)
    requires NoFixedPoint(ps, d)
    requires forall i, j :: 0 <= i < j < |d| ==> d[i] != d[j]
    requires forall i :: 0 <= i < |ps| ==> AmigoAsignado(asignaciones, ps, ps[i].id) == Some(d[i])
    ensures SecretSantaAssignment(asignaciones, ps)
  {
    var f := Friends(asignaciones, ps);
    assert forall i :: 0 <= i < |ps| ==> f[i] == Some(d[i]);
  }

  /** A rearrangement of a list with unique ids repeats no entry. */
  lemma DerangementEntriesDistinct(ps: seq<Participante>, d: seq<Participante>)
    requires Distinct(Ids(ps)) && multiset(d) == multiset(ps)
    ensures forall i, j :: 0 <= i < j < |d| ==> d[i] != d[j]
  {
    IdsOfPermutation(d, ps);
    DistinctPermutation(Ids(ps), Ids(d));
    forall i, j | 0 <= i < j < |d| ensures d[i] != d[j] {
      assert Ids(d)[i] != Ids(d)[j];
    }
  }

  /** Hence the upserted rows of a derangement are a Secret Santa assignment in the table ... */
  lemma UpsertedDrawResolves(t: seq<Asignacion>, ps: seq<Participante>, d: seq<Participante>)
    requires Distinct(Ids(ps)) && IsDerangement(ps, d)
    ensures SecretSantaAssignment(Upsert(t, BuildRows(ps, d)), ps)
  {
    var u := Upsert(t, BuildRows(ps, d));
    DerangementEntriesDistinct(ps, d);
    forall i | 0 <= i < |ps| ensures AmigoAsignado(u, ps, ps[i].id) == Some(d[i]) {
      DrawnRowResolves(t, ps, d, i);
    }
    ResolvingToDerangement(u, ps, d);
  }

  /** ... and in the rows the upsert hands back to the page. */
  lemma ReturnedDrawResolves(t: seq<Asignacion>, ps: seq<Participante>, d: seq<Participante>)
    requires Distinct(Ids(ps)) && IsDerangement(ps, d)
    ensures SecretSantaAssignment(WithKeys(Upsert(t, BuildRows(ps, d)), Ids(ps)), ps)
  {
    var w := WithKeys(Upsert(t, BuildRows(ps, d)), Ids(ps));
    DerangementEntriesDistinct(ps, d);
    forall i | 0 <= i < |ps| ensures AmigoAsignado(w, ps, ps[i].id) == Some(d[i]) {
      DrawnRowResolves(t, ps, d, i);
    }
    ResolvingToDerangement(w, ps, d);
  }

  /** What `realizarSorteo` leaves behind when it succeeds: the loop's outcome, upserted,
      is a Secret Santa assignment in the table and in the rows the page takes. */
  lemma CompletedDrawIsSecretSanta(t: seq<Asignacion>, ps: seq<Participante>, pick: (nat, nat) -> nat, fuel: nat)
    requires ValidOracle(pick) && Distinct(Ids(ps)) && DrawOutcome(ps, pick, fuel).Some?
    ensures var rows := BuildRows(ps, DrawOutcome(ps, pick, fuel).value);
      SecretSantaAssignment(Upsert(t, rows), ps) && SecretSantaAssignment(WithKeys(Upsert(t, rows), Ids(ps)), ps)
  {
    UpsertedDrawResolves(t, ps, DrawOutcome(ps, pick, fuel).value);
    ReturnedDrawResolves(t, ps, DrawOutcome(ps, pick, fuel).value);
  }

  /** Marking assignments notified never changes anyone's friend. */
  lemma MarkNotifiedKeepsFriends(t: seq<Asignacion>, ids: seq<Id>, ps: seq<Participante>, pid: Id)
    ensures AmigoAsignado(MarkNotified(t, ids), ps, pid) == AmigoAsignado(t, ps, pid)
  {
    MarkNotifiedKeepsMapping(t, ids, pid);
  }

  /** So a finished draw stays one after the links are generated. */
  lemma MarkNotifiedKeepsAssignment(t: seq<Asignacion>, ids: seq<Id>, ps: seq<Participante>)
    requires SecretSantaAssignment(t, ps)
    ensures SecretSantaAssignment(MarkNotified(t, ids), ps)
  {
    var f := Friends(t, ps);
    var g := Friends(MarkNotified(t, ids), ps);
    forall i | 0 <= i < |ps| ensures g[i] == f[i] {
      MarkNotifiedKeepsFriends(t, ids, ps, ps[i].id);
    }
    assert g == f;
  }

  class SorteoView {
    /** The draw id from the route. */
    const id: Id
    const store: Store
    const db: Database
    /** The page's copy of the draw's assignment rows. */
    var asignaciones: seq<Asignacion>
    var enlacesGenerados: bool

    constructor (id: Id, store: Store, db: Database)
      ensures this.id == id && this.store == store && this.db == db
      ensures asignaciones == [] && !enlacesGenerados
    {
      this.id := id;
      this.store := store;
      this.db := db;
      asignaciones := [];
      enlacesGenerados := false;
    }

    /** The page's rows are the table's rows for the listed participants. */
    ghost predicate ShowsTable()
      reads this, store, db
    {
      asignaciones == WithKeys(db.asignaciones, Ids(store.participantes))
    }

    /** `getAmigoAsignado`, on the page's rows and the store's list. */
    function GetAmigoAsignado(pid: Id): (r: Option<Participante>)
      reads this, store
      ensures r.Some? ==> r.value in store.participantes
      ensures r.Some? <==> pid in Keys(asignaciones) && LookupAsignacion(asignaciones, pid).value.amigoAsignadoId in Ids(store.participantes)
      ensures r.Some? ==> r.value.id == LookupAsignacion(asignaciones, pid).value.amigoAsignadoId
    {
      AmigoAsignado(asignaciones, store.participantes, pid)
    }

    /** `loadParticipantes`: the draw's participants replace the list; when there are any,
        their assignment rows replace the page's rows. Either failure sets the error. */
    method LoadParticipantes(fault: bool, asignFault: bool)
      modifies this, store
      ensures fault ==>
        store.State() == old(store.State()).(isLoading := false, error := Some(MsgErrorCargar)) && asignaciones == old(asignaciones)
      ensures !fault ==> store.participantes == OfSorteo(db.participantes, id) && store.isLoading == false
      ensures !fault && (store.participantes == [] || !asignFault) ==>
        store.State() == old(store.State()).(participantes := store.participantes, isLoading := false)
      ensures !fault && store.participantes != [] && !asignFault ==> ShowsTable()
      ensures !fault && (store.participantes == [] || asignFault) ==> asignaciones == old(asignaciones)
      ensures !fault && store.participantes != [] && asignFault ==>
        store.State() == old(store.State()).(participantes := store.participantes, isLoading := false, error := Some(MsgErrorCargar))
      ensures store.currentSorteoId == old(store.currentSorteoId) && enlacesGenerados == old(enlacesGenerados)
    {
      store.SetLoading(true);
      var r := db.SelectParticipantesBySorteo(id, fault);
      if r.Failure? {
        store.SetError(Some(MsgErrorCargar));
      } else {
        var lista := r.value;
        store.SetParticipantes(lista);
        if |lista| > 0 {
          var a := db.SelectAsignacionesIn(Ids(lista), asignFault);
          if a.Success? {
            asignaciones := a.value;
          } else {
            store.SetError(Some(MsgErrorCargar));
          }
        }
      }
      store.SetLoading(false);
    }

    /** `realizarSorteo`. Fewer than three participants: the error is set and nothing else
        happens. Otherwise the loop looks for a derangement; while it has not found one
        (here: out of fuel) the page stays loading and nothing is written. Once found, the
        rows are written as `CommitDraw` says. */
    method RealizarSorteo(pick: (nat, nat) -> nat, fuel: nat, upsertFault: bool, updateFault: bool, now: string)
      requires ValidOracle(pick) && db.Valid()
      modifies this, store, db
      ensures db.Valid()
      ensures |old(store.participantes)| < MinParticipantes ==>
        store.State() == old(store.State()).(error := Some(MsgMinimo)) && unchanged(this) && unchanged(db)
      ensures var ps := old(store.participantes);
        |ps| >= MinParticipantes && DrawOutcome(ps, pick, fuel).None? ==>
          store.State() == old(store.State()).(isLoading := true) && unchanged(this) && unchanged(db)
      ensures var ps := old(store.participantes);
        var drawn := DrawOutcome(ps, pick, fuel);
        |ps| >= MinParticipantes && drawn.Some? ==>
          var rows := BuildRows(ps, drawn.value);
          var upserted := !upsertFault && Distinct(Ids(ps));
          var completed := upserted && !updateFault;
          && db.asignaciones == (if upserted then Upsert(old(db.asignaciones), rows) else old(db.asignaciones))
          && db.sorteos == (if completed then Tables.CompleteSorteo(old(db.sorteos), id, now) else old(db.sorteos))
          && db.participantes == old(db.participantes)
          && asignaciones == (if completed then WithKeys(db.asignaciones, Ids(ps)) else old(asignaciones))
          && enlacesGenerados == old(enlacesGenerados)
          && store.State() == old(store.State()).(isLoading := false, error := if completed then None else Some(MsgErrorSorteo))
      ensures !store.isLoading && store.error.None? ==> ShowsTable()
    {
      var ps := store.participantes;
      if |ps| < MinParticipantes {
        store.SetError(Some(MsgMinimo));
        return;
      }
      store.SetLoading(true);
      var drawn := DrawDerangement(ps, pick, fuel);
      if drawn.None? {
        return;
      }
      CommitDraw(drawn.value, upsertFault, updateFault, now);
    }

    /** The rest of `realizarSorteo` once the loop found the derangement `d` of the listed
        participants: upsert the rows, and only after the upsert succeeded complete the draw;
        only when both succeeded take the returned rows and clear the error. A failure of
        either sets the error and leaves the page's rows as they were (a failed completion
        does not undo the upsert). */
    method CommitDraw(d: seq<Participante>, upsertFault: bool, updateFault: bool, now: string)
      requires db.Valid() && IsDerangement(store.participantes, d)
      modifies this, store, db
      ensures db.Valid()
      ensures var ps := old(store.participantes);
        var upserted := !upsertFault && Distinct(Ids(ps));
        var completed := upserted && !updateFault;
        && db.asignaciones == (if upserted then Upsert(old(db.asignaciones), BuildRows(ps, d)) else old(db.asignaciones))
        && db.sorteos == (if completed then Tables.CompleteSorteo(old(db.sorteos), id, now) else old(db.sorteos))
        && db.participantes == old(db.participantes)
        && asignaciones == (if completed then WithKeys(db.asignaciones, Ids(ps)) else old(asignaciones))
        && enlacesGenerados == old(enlacesGenerados)
        && store.State() == old(store.State()).(isLoading := false, error := if completed then None else Some(MsgErrorSorteo))
      ensures store.error.None? ==> ShowsTable()
    {
      var ps := store.participantes;
      var rows := BuildRows(ps, d);
      var up := db.UpsertAsignaciones(rows, upsertFault);
      if up.Success? {
        var err := db.CompleteSorteo(id, now, updateFault);
        if err.None? {
          asignaciones := up.value;
          store.SetError(None);
        } else {
          store.SetError(Some(MsgErrorSorteo));
        }
      } else {
        store.SetError(Some(MsgErrorSorteo));
      }
      store.SetLoading(false);
    }

    /** `generarEnlaces`: every assignment of a listed participant is marked notified in the
        table, nothing else changes there, and nobody's friend changes. */
    method GenerarEnlaces(fault: bool)
      requires db.Valid()
      modifies this, store, db
      ensures db.Valid()
      ensures db.asignaciones == if fault then old(db.asignaciones) else MarkNotified(old(db.asignaciones), Ids(old(store.participantes)))
      ensures db.sorteos == old(db.sorteos) && db.participantes == old(db.participantes)
      ensures enlacesGenerados == (old(enlacesGenerados) || !fault) && asignaciones == old(asignaciones)
      ensures store.State() == old(store.State()).(isLoading := false, error := if fault then Some(MsgErrorEnlaces) else None)
      ensures forall pid :: AmigoAsignado(db.asignaciones, store.participantes, pid) == AmigoAsignado(old(db.asignaciones), store.participantes, pid)
    {
      store.SetLoading(true);
      var ids := Ids(store.participantes);
      var err := db.MarkNotified(ids, fault);
      if err.None? {
        forall pid | true ensures AmigoAsignado(db.asignaciones, store.participantes, pid) == AmigoAsignado(old(db.asignaciones), store.participantes, pid) {
          MarkNotifiedKeepsFriends(old(db.asignaciones), ids, store.participantes, pid);
        }
        enlacesGenerados := true;
        store.SetError(None);
      } else {
        store.SetError(Some(MsgErrorEnlaces));
      }
      store.SetLoading(false);
    }
  }
}
