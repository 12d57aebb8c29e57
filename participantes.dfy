/**
 * The participants page (src/pages/Participantes.tsx): the checks an add goes
 * through before anything is inserted, the add and delete handlers that keep the
 * session store's list in step with the `participantes` table, and the count guard
 * in front of the draw.
 */
module ParticipantesPage {
  import opened Wrappers
  import opened Text
  import opened Tables
  import opened Backend
  import opened SessionStore

  const MsgNombreVacio: string := "Por favor ingresa un nombre"
  const MsgSinSorteo: string := "No hay sorteo activo"
  const MsgDuplicado: string := "Este participante ya fue agregado"
  const MsgErrorAgregar: string := "Error al agregar participante"
  const MsgErrorEliminar: string := "Error al eliminar participante"
  const MsgErrorCargar: string := "Error al cargar participantes"
  const MsgMinimo: string := "Se necesitan al menos 3 participantes para realizar el sorteo"


  /** What the checks in front of the insert decide: insert this name into this draw, or show this message. */
  datatype AddCheck = Accept(sorteoId: Id, nombre: string) | Reject(message: string)

  /** The duplicate test: some listed name, lower-cased, equals the input lower-cased and then
      trimmed, which is the same as the input trimmed and then lower-cased. */
  predicate NameTaken(ps: seq<Participante>, nombre: string): (b: bool)
    ensures b <==> exists p :: p in ps && Lower(p.nombre) == Lower(Trim(nombre))
  {
    TrimLowerCommute(nombre);
    exists p :: p in ps && Lower(p.nombre) == Trim(Lower(nombre))
  }

  /** The three checks of the add handler, in the order the handler runs them:
      a blank name, then no active draw, then a duplicate. An accepted name is stored trimmed. */
  function CheckAdd(nombre: string, sorteoId: Option<Id>, ps: seq<Participante>): (r: AddCheck)
    ensures r.Accept? <==> !IsBlank(nombre) && HasSorteo(sorteoId) && !NameTaken(ps, nombre)
    ensures r.Accept? ==> r.sorteoId == sorteoId.value && r.nombre == Trim(nombre) && r.nombre != []
    ensures IsBlank(nombre) ==> r == Reject(MsgNombreVacio)
    ensures !IsBlank(nombre) && !HasSorteo(sorteoId) ==> r == Reject(MsgSinSorteo)
    ensures !IsBlank(nombre) && HasSorteo(sorteoId) && NameTaken(ps, nombre) ==> r == Reject(MsgDuplicado)
  {
    if Trim(nombre) == [] then Reject(MsgNombreVacio)
    else if !HasSorteo(sorteoId) then Reject(MsgSinSorteo)
    else if NameTaken(ps, nombre) then Reject(MsgDuplicado)
    else Accept(sorteoId.value, Trim(nombre))
  }

  /** No two listed names are equal once lower-cased. */
  predicate NamesDistinct(ps: seq<Participante>) {
    forall i, j :: 0 <= i < j < |ps| ==> Lower(ps[i].nombre) != Lower(ps[j].nombre)
  }

  /** Every listed name is non-empty and already trimmed, as the add handler stores it. */
  predicate NamesTrimmed(ps: seq<Participante>) {
    forall i :: 0 <= i < |ps| ==> ps[i].nombre != [] && Trim(ps[i].nombre) == ps[i].nombre
  }

  /** Appending what the checks accept keeps a list of trimmed, case-insensitively distinct names so. */
  lemma AcceptKeepsNamesDistinct(nombre: string, sorteoId: Option<Id>, ps: seq<Participante>, p: Participante)
    requires NamesDistinct(ps) && NamesTrimmed(ps)
    requires CheckAdd(nombre, sorteoId, ps).Accept? && p.nombre == CheckAdd(nombre, sorteoId, ps).nombre
    ensures NamesDistinct(ps + [p]) && NamesTrimmed(ps + [p])
  {
    var c := CheckAdd(nombre, sorteoId, ps);
    assert Lower(p.nombre) == Trim(Lower(nombre)) by {
      TrimLowerCommute(nombre);
    }
    assert Trim(p.nombre) == p.nombre by {
      TrimIdempotent(nombre);
    }
    assert forall i :: 0 <= i < |ps| ==> Lower(ps[i].nombre) != Lower(p.nombre) by {
      assert !NameTaken(ps, nombre);
    }
    AppendKeepsNames(ps, p);
  }

  lemma AppendKeepsNames(ps: seq<Participante>, p: Participante)
    requires NamesDistinct(ps) && NamesTrimmed(ps)
    requires p.nombre != [] && Trim(p.nombre) == p.nombre
    requires forall i :: 0 <= i < |ps| ==> Lower(ps[i].nombre) != Lower(p.nombre)
    ensures NamesDistinct(ps + [p]) && NamesTrimmed(ps + [p])
  {
    var qs := ps + [p];
    assert forall i :: 0 <= i < |ps| ==> qs[i] == ps[i];
    assert qs[|ps|] == p;
  }

  /** With a draw open, the duplicate check catches any input that trims and lower-cases to a
      listed name, whatever its case and surrounding white space. */
  lemma DuplicateRejected(nombre: string, sid: Id, ps: seq<Participante>, i: nat)
    requires i < |ps| && !IsBlank(nombre) && sid != []
    requires Lower(ps[i].nombre) == Lower(Trim(nombre))
    ensures CheckAdd(nombre, Some(sid), ps) == Reject(MsgDuplicado)
  {
    TrimLowerCommute(nombre);
  }

  /** An empty draw id counts as no draw, as `!currentSorteoId` reads it: the name is refused. */
  lemma EmptyDrawIdRejected(nombre: string, ps: seq<Participante>)
    requires !IsBlank(nombre)
    ensures CheckAdd(nombre, Some([]), ps) == Reject(MsgSinSorteo)
  {
  }

  /** Where the draw button leads: nowhere, or to the draw page of the current draw id
      (which the handler puts in the path as it is, even when there is none). */
  datatype Navigation = Stay | GoToSorteo(sorteoId: Option<Id>)

  class ParticipantesView {
    /** The text field. */
    var nombre: string
    const store: Store
    const db: Database

    constructor (store: Store, db: Database)
      ensures nombre == [] && this.store == store && this.db == db
    {
      nombre := [];
      this.store := store;
      this.db := db;
    }

    /** The page's list is the current draw's rows of the `participantes` table. */
    ghost predicate InSync()
      reads store, db
    {
      HasSorteo(store.currentSorteoId) ==> store.participantes == OfSorteo(db.participantes, store.currentSorteoId.value)
    }

    /** `loadParticipantes`: with a draw id, replace the list by that draw's rows. */
    method LoadParticipantes(fault: bool)
      modifies store
      ensures !HasSorteo(old(store.currentSorteoId)) ==> store.State() == old(store.State())
      ensures HasSorteo(old(store.currentSorteoId)) && fault ==>
        store.State() == old(store.State()).(isLoading := false, error := Some(MsgErrorCargar))
      ensures HasSorteo(old(store.currentSorteoId)) && !fault ==>
        store.State() == old(store.State()).(participantes := OfSorteo(db.participantes, old(store.currentSorteoId).value), isLoading := false)
      ensures !fault ==> InSync()
      ensures fault ==> (old(InSync()) ==> InSync())
    {
      if !HasSorteo(store.currentSorteoId) {
        return;
      }
      store.SetLoading(true);
      var r := db.SelectParticipantesBySorteo(store.currentSorteoId.value, fault);
      if r.Success? {
        store.SetParticipantes(r.value);
      } else {
        store.SetError(Some(MsgErrorCargar));
      }
      store.SetLoading(false);
    }

    /** `handleAgregarParticipante`. A rejected name sets its message and touches nothing else.
        An accepted one is inserted trimmed into the current draw; only when the insert
        succeeds is the returned row appended and the field and the error cleared. */
    method HandleAgregarParticipante(newId: Id, newToken: string, fault: bool)
      requires db.Valid()
      modifies this, store, db
      ensures db.Valid()
      ensures CheckAdd(old(nombre), old(store.currentSorteoId), old(store.participantes)).Reject? ==>
        var msg := CheckAdd(old(nombre), old(store.currentSorteoId), old(store.participantes)).message;
        store.State() == old(store.State()).(error := Some(msg)) && nombre == old(nombre) && unchanged(db)
      ensures CheckAdd(old(nombre), old(store.currentSorteoId), old(store.participantes)).Accept? ==>
        var c := CheckAdd(old(nombre), old(store.currentSorteoId), old(store.participantes));
        var p := Participante(newId, c.sorteoId, c.nombre, newToken);
        if !fault && newId !in Ids(old(db.participantes)) && newToken !in Tokens(old(db.participantes)) then
          store.State() == old(store.State()).(participantes := old(store.participantes) + [p], isLoading := false, error := None)
          && nombre == [] && db.participantes == old(db.participantes) + [p]
        else
          store.State() == old(store.State()).(isLoading := false, error := Some(MsgErrorAgregar))
          && nombre == old(nombre) && db.participantes == old(db.participantes)
      ensures db.sorteos == old(db.sorteos) && db.asignaciones == old(db.asignaciones)
      ensures old(InSync()) ==> InSync()
    {
      var c := CheckAdd(nombre, store.currentSorteoId, store.participantes);
      if c.Reject? {
        store.SetError(Some(c.message));
        return;
      }
      store.SetLoading(true);
      var r := db.InsertParticipante(c.sorteoId, c.nombre, newId, newToken, fault);
      if r.Success? {
        OfSorteoAppend(old(db.participantes), r.value, c.sorteoId);
        store.AddParticipante(r.value);
        nombre := [];
        store.SetError(None);
      } else {
        store.SetError(Some(MsgErrorAgregar));
      }
      store.SetLoading(false);
    }

    /** `handleEliminarParticipante`: the row leaves the list only after the delete succeeded;
        a failed delete leaves the list as it was and sets the error. */
    method HandleEliminarParticipante(id: Id, fault: bool)
      requires db.Valid()
      modifies store, db
      ensures db.Valid()
      ensures store.State() == if fault
        then old(store.State()).(isLoading := false, error := Some(MsgErrorEliminar))
        else old(store.State()).(participantes := Without(old(store.participantes), id), isLoading := false)
      ensures db.participantes == if fault then old(db.participantes) else Without(old(db.participantes), id)
      ensures db.sorteos == old(db.sorteos) && db.asignaciones == old(db.asignaciones)
      ensures old(InSync()) ==> InSync()
    {
      store.SetLoading(true);
      var err := db.DeleteParticipante(id, fault);
      if err.None? {
        if HasSorteo(store.currentSorteoId) {
          OfSorteoWithout(old(db.participantes), store.currentSorteoId.value, id);
        }
        store.RemoveParticipante(id);
      } else {
        store.SetError(Some(MsgErrorEliminar));
      }
      store.SetLoading(false);
    }

    /** `handleRealizarSorteo`: fewer than three participants sets the error and stays. */
    method HandleRealizarSorteo() returns (nav: Navigation)
      modifies store
      ensures nav == Stay <==> |old(store.participantes)| < MinParticipantes
      ensures nav == Stay ==> store.State() == old(store.State()).(error := Some(MsgMinimo))
      ensures nav != Stay ==> nav.sorteoId == store.currentSorteoId && store.State() == old(store.State())
    {
      if |store.participantes| < MinParticipantes {
        store.SetError(Some(MsgMinimo));
        return Stay;
      }
      nav := GoToSorteo(store.currentSorteoId);
    }
  }
}
