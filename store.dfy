/**
 * The session store `useSecretSantaStore` (src/store/secretSantaStore.ts): four
 * fields that every action overwrites through `set`. Each action is a method that
 * changes its own field and leaves the other three as they were.
 */
module SessionStore {
  import opened Wrappers
  import opened Tables

  /** A snapshot of the store's four fields. */
  datatype StoreState = StoreState(
    currentSorteoId: Option<Id>,
    participantes: seq<Participante>,
    isLoading: bool,
    error: Option<string>)

  /** No draw, no participants, not loading, no error. */
  const Initial := StoreState(None, [], false, None)

  class Store {
    var currentSorteoId: Option<Id>
    var participantes: seq<Participante>
    var isLoading: bool
    var error: Option<string>

    function State(): StoreState
      reads this
    {
      StoreState(currentSorteoId, participantes, isLoading, error)
    }

    constructor ()
      ensures State() == Initial
    {
      currentSorteoId := None;
      participantes := [];
      isLoading := false;
      error := None;
    }

    method SetCurrentSorteoId(id: Id)
      modifies this
      ensures State() == old(State()).(currentSorteoId := Some(id))
    {
      currentSorteoId := Some(id);
    }

    method SetParticipantes(ps: seq<Participante>)
      modifies this
      ensures State() == old(State()).(participantes := ps)
    {
      participantes := ps;
    }

    /** `[...state.participantes, participante]`: appended at the end, the others in order. */
    method AddParticipante(p: Participante)
      modifies this
      ensures State() == old(State()).(participantes := old(participantes) + [p])
      ensures participantes[..|participantes| - 1] == old(participantes) && participantes[|participantes| - 1] == p
    {
      participantes := participantes + [p];
    }

    /** `state.participantes.filter(p => p.id !== id)`; see `Tables.Without` for what that keeps. */
    method RemoveParticipante(id: Id)
      modifies this
      ensures State() == old(State()).(participantes := Without(old(participantes), id))
      ensures forall p :: p in participantes <==> p in old(participantes) && p.id != id
      ensures id !in Ids(old(participantes)) ==> participantes == old(participantes)
    {
      if id !in Ids(participantes) {
        WithoutAbsent(participantes, id);
      }
      participantes := Without(participantes, id);
    }

    method SetLoading(loading: bool)
      modifies this
      ensures State() == old(State()).(isLoading := loading)
    {
      isLoading := loading;
    }

    method SetError(e: Option<string>)
      modifies this
      ensures State() == old(State()).(error := e)
    {
      error := e;
    }

    /** Back to the initial state, whatever the state was: so clearing twice is clearing once. */
    method ClearStore()
      modifies this
      ensures State() == Initial
    {
      currentSorteoId := None;
      participantes := [];
      isLoading := false;
      error := None;
    }
  }
}
