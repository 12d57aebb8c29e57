/**
 * The result page (src/pages/Resultado.tsx): from the private link's token to the
 * participant, from the participant to their assignment row, and from the row's
 * `amigo_asignado_id` to the friend, stopping at the first step that fails.
 */
module ResultadoPage {
  import opened Wrappers
  import opened Tables
  import opened Backend
  import opened Derangement

  const MsgErrorResultado: string := "Error al cargar el resultado"
  const MsgSinInformacion: string := "No se pudo cargar la información"

  /** Which of the three requests fail in transit. */
  datatype Faults = Faults(participante: bool, asignacion: bool, amigo: bool)

  const NoFaults := Faults(false, false, false)

  /** How far the chain of lookups got. */
  datatype Outcome =
    | NoParticipante                                            // step 1 failed
    | NoAsignacion(participante: Participante)                  // step 2 failed
    | NoAmigo(participante: Participante)                       // step 3 failed
    | Found(participante: Participante, amigo: Participante)    // all three succeeded

  /** The three lookups of `cargarResultado` over the tables, each by key equality,
      stopping at the first that fails or finds no row. */
  function Resolve(ps: seq<Participante>, asignaciones: seq<Asignacion>, token: string, faults: Faults): (r: Outcome)
    ensures r.NoParticipante? <==> faults.participante || token !in Tokens(ps)
    ensures !r.NoParticipante? ==> r.participante in ps && r.participante.tokenAcceso == token
    ensures r.NoAsignacion? <==> !r.NoParticipante? && (faults.asignacion || r.participante.id !in Keys(asignaciones))
    ensures r.Found? <==> && !faults.participante && !faults.asignacion && !faults.amigo
                          && token in Tokens(ps) && AmigoAsignado(asignaciones, ps, FindByToken(ps, token).value.id).Some?
    ensures r.Found? ==> r.amigo in ps && exists a :: a in asignaciones && a.participanteId == r.participante.id && a.amigoAsignadoId == r.amigo.id
  {
    if faults.participante then NoParticipante
    else match FindByToken(ps, token)
      case None => NoParticipante
      case Some(p) =>
        if faults.asignacion then NoAsignacion(p)
        else match LookupAsignacion(asignaciones, p.id)
          case None => NoAsignacion(p)
          case Some(a) =>
            if faults.amigo then NoAmigo(p)
            else match FindById(ps, a.amigoAsignadoId)
              case None => NoAmigo(p)
              case Some(f) => Found(p, f)
  }

  /** With the schema's uniqueness constraints, the chain finds the participant holding the
      token and the friend their assignment row names, whenever those rows exist. */
  lemma ResolveComplete(ps: seq<Participante>, asignaciones: seq<Asignacion>, p: Participante, a: Asignacion, f: Participante)
    requires Distinct(Ids(ps)) && Distinct(Tokens(ps)) && Distinct(Keys(asignaciones))
    requires p in ps && a in asignaciones && f in ps
    requires a.participanteId == p.id && a.amigoAsignadoId == f.id
    ensures Resolve(ps, asignaciones, p.tokenAcceso, NoFaults) == Found(p, f)
  {
    FindByTokenUnique(ps, p);
    LookupAsignacionUnique(asignaciones, a);
    FindByIdUnique(ps, f);
  }

  /** End to end: after the rows of a derangement `d` of a draw's participants `ps` are
      upserted, the link of `ps[i]` shows `ps[i]` and their friend `d[i]`, who is someone else. */
  lemma LinkShowsDrawnFriend(all: seq<Participante>, ps: seq<Participante>, d: seq<Participante>, t: seq<Asignacion>, i: nat)
    requires Distinct(Ids(all)) && Distinct(Tokens(all)) && Distinct(Keys(t))
    requires forall p :: p in ps ==> p in all
    requires Distinct(Ids(ps)) && IsDerangement(ps, d) && i < |ps|
    ensures Resolve(all, Upsert(t, BuildRows(ps, d)), ps[i].tokenAcceso, NoFaults) == Found(ps[i], d[i])
    ensures d[i].id != ps[i].id
  {
    var rows := BuildRows(ps, d);
    var u := Upsert(t, rows);
    RowsAreDerangement(ps, d);
    UpsertKeys(t, rows);
    assert rows[i].participanteId == ps[i].id && rows[i].amigoAsignadoId == d[i].id;
    UpsertLookup(t, rows, ps[i].id);
    var a := LookupAsignacion(u, ps[i].id).value;
    assert d[i] in multiset(ps);
    ResolveComplete(all, u, ps[i], a, d[i]);
  }

  /** The page's four state variables. */
  datatype PageState = PageState(
    participante: Option<Participante>,
    amigoAsignado: Option<Participante>,
    isLoading: bool,
    error: Option<string>)

  /** Loading, no participant, no friend, no error. */
  const InitialPage := PageState(None, None, true, None)

  /** The state `cargarResultado` leaves: the participant is stored as soon as it is found,
      the friend only at the end; any failed step sets the one generic message; the error
      is never cleared; loading always ends. */
  function AfterLoad(s: PageState, o: Outcome): (r: PageState)
    ensures !r.isLoading
    ensures s.error.Some? ==> r.error.Some?
    ensures r.error.None? <==> s.error.None? && o.Found?
    ensures !o.Found? ==> r.amigoAsignado == s.amigoAsignado
  {
    match o
    case NoParticipante => s.(isLoading := false, error := Some(MsgErrorResultado))
    case NoAsignacion(p) => s.(participante := Some(p), isLoading := false, error := Some(MsgErrorResultado))
    case NoAmigo(p) => s.(participante := Some(p), isLoading := false, error := Some(MsgErrorResultado))
    case Found(p, f) => s.(participante := Some(p), amigoAsignado := Some(f), isLoading := false)
  }

  /** What the page renders: a spinner, an error card, or the greeting with the two names. */
  datatype Screen = Spinner | ErrorCard(message: string) | Greeting(nombre: string, amigoNombre: string)

  function Render(s: PageState): (r: Screen)
    ensures r.Spinner? <==> s.isLoading
    ensures r.Greeting? <==> !s.isLoading && s.error.None? && s.participante.Some? && s.amigoAsignado.Some?
    ensures r.Greeting? ==> r.nombre == s.participante.value.nombre && r.amigoNombre == s.amigoAsignado.value.nombre
    ensures r.ErrorCard? && s.error.Some? ==> r.message == s.error.value
  {
    if s.isLoading then Spinner
    else if s.error.Some? then ErrorCard(s.error.value)
    else if s.participante.None? || s.amigoAsignado.None? then ErrorCard(MsgSinInformacion)
    else Greeting(s.participante.value.nombre, s.amigoAsignado.value.nombre)
  }

  /** A first load shows the greeting exactly when the whole chain succeeded, and then with
      the names of the participant holding the token and of the friend their row names;
      every failure shows the generic message. */
  lemma FirstLoadScreen(ps: seq<Participante>, asignaciones: seq<Asignacion>, token: string, faults: Faults)
    ensures var o := Resolve(ps, asignaciones, token, faults);
      var screen := Render(AfterLoad(InitialPage, o));
      && (screen.Greeting? <==> o.Found?)
      && (o.Found? ==> screen == Greeting(o.participante.nombre, o.amigo.nombre) && o.participante.tokenAcceso == token)
      && (!o.Found? ==> screen == ErrorCard(MsgErrorResultado))
  {
  }

  /** The error is not reset when loading starts, so once a load has failed, a later
      successful load on the same page still renders the error card. */
  lemma StaleErrorPersists(s: PageState, p: Participante, f: Participante)
    requires s.error.Some?
    ensures Render(AfterLoad(s, Found(p, f))) == ErrorCard(s.error.value)
  {
  }

  class ResultadoView {
    var participante: Option<Participante>
    var amigoAsignado: Option<Participante>
    var isLoading: bool
    var error: Option<string>
    const db: Database

    function State(): PageState
      reads this
    {
      PageState(participante, amigoAsignado, isLoading, error)
    }

    constructor (db: Database)
      ensures State() == InitialPage && this.db == db
    {
      participante := None;
      amigoAsignado := None;
      isLoading := true;
      error := None;
      this.db := db;
    }

    /** `cargarResultado`, one request after the other, returning early on the first failure. */
    method CargarResultado(token: string, faults: Faults)
      modifies this
      ensures State() == AfterLoad(old(State()), Resolve(db.participantes, db.asignaciones, token, faults))
    {
      isLoading := true;
      var r1 := db.SelectParticipanteByToken(token, faults.participante);
      if r1.Failure? {
        error := Some(MsgErrorResultado);
        isLoading := false;
        return;
      }
      var p := r1.value;
      participante := Some(p);
      var r2 := db.SelectAsignacion(p.id, faults.asignacion);
      if r2.Failure? {
        error := Some(MsgErrorResultado);
        isLoading := false;
        return;
      }
      var r3 := db.SelectParticipanteById(r2.value.amigoAsignadoId, faults.amigo);
      if r3.Failure? {
        error := Some(MsgErrorResultado);
        isLoading := false;
        return;
      }
      amigoAsignado := Some(r3.value);
      isLoading := false;
    }
  }
}
