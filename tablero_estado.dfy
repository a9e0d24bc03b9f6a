/** The state of the coordinator's home dashboard (`Views/home.jsx`): the
    counters, the request list, the notifications, the loading flag and the
    error, with `cargarDatos`, `actualizarNotificaciones` and the in-place
    sort behind the "latest requests" panel. */
module TableroEstado {
  import opened Texto
  import opened Solicitudes
  import opened Secuencias
  import opened Tablero

  /** One more request, one more notice at the end. */
  lemma AvisosUnoMas(s: seq<Solicitud>, r: Resolucion, i: nat)
    requires i < |s|
    ensures Avisos(s[..i + 1], r) == Avisos(s[..i], r) + [AvisoResuelta(s[i], r)]
  {
    assert s[..i + 1][i] == s[i];
  }

  /** `recientes.forEach(s => lista.push(...))`: one notice per request,
      appended in order. */
  method AgregarAvisos(lista: seq<Notificacion>, recientes: seq<Solicitud>, r: Resolucion)
    returns (ns: seq<Notificacion>)
    ensures ns == lista + Avisos(recientes, r)
  {
    ns := lista;
    var i := 0;
    while i < |recientes|
      invariant 0 <= i <= |recientes|
      invariant ns == lista + Avisos(recientes[..i], r)
    {
      AvisosUnoMas(recientes, r, i);
      ns := ns + [AvisoResuelta(recientes[i], r)];
      i := i + 1;
    }
    assert recientes[..i] == recientes;
  }

  /** `actualizarNotificaciones`: sort a copy of the list, push the 24-hour
      and delay notices when they apply, then one notice per approved and
      per rejected request among the three most recent of each. */
  method ActualizarNotificaciones(l: seq<Solicitud>, now: Timestamp) returns (ns: seq<Notificacion>)
    ensures ns == Notificaciones(l, now)
  {
    var ordenadas := Ordenar(l);
    ns := [];
    var ultimasDia := Filtrar(ordenadas, Reciente(now));
    if |ultimasDia| > 0 {
      ns := ns + [Notificacion(ID_NUEVAS, MensajeNuevas(|ultimasDia|), Info, now)];
    }
    var demoradas := Filtrar(ordenadas, Demorada(now));
    if |demoradas| > 0 {
      ns := ns + [Notificacion(ID_DEMORADAS, MensajeDemoradas(|demoradas|), Warning, now)];
    }
    assert ns == AvisoNuevas(ordenadas, now) + AvisoDemoradas(ordenadas, now);
    ns := AgregarAvisos(ns, TresMasRecientes(ordenadas, EsAprobada), Aprobada);
    ns := AgregarAvisos(ns, TresMasRecientes(ordenadas, EsRechazada), Rechazada);
  }

  /** The `message` of the error `cargarDatos` catches: its own text for a
      failed status, the rejection's message otherwise. Unlike the request
      page's message, the one for a failed status does not carry the status. */
  function MensajeDeCarga(r: Respuesta): (m: string)
    requires !r.Ok?
    ensures r.Falla? ==> m == MensajeDeFalla(r)
    ensures r.NoOk? ==> m == "Error al cargar los datos" && m != MensajeDeFalla(r)
  {
    assert r.NoOk? ==> '0' <= MensajeDeFalla(r)[6] <= '9';
    match r
    case NoOk(_, _) => "Error al cargar los datos"
    case Falla(m) => m
  }

  class Dashboard {
    var stats: Stats
    var solicitudes: seq<Solicitud>
    var notificaciones: seq<Notificacion>
    var loading: bool
    var error: Option<string>

    /** The counters always describe the list held: the total is its
      length, and no request is in two buckets. */
    predicate Valid()
      reads this
      ensures Valid() ==> stats.totalSolicitudes == |solicitudes|
      ensures Valid() ==> stats.pendientes + stats.aprobadas + stats.rechazadas <= stats.totalSolicitudes
    {
      stats == CalcularStats(solicitudes)
    }

    /** The first render: zero counters, no data, loading. */
    constructor ()
      ensures Valid()
      ensures stats == StatsIniciales && solicitudes == [] && notificaciones == []
      ensures loading && error == None
    {
      stats := StatsIniciales;
      solicitudes := [];
      notificaciones := [];
      loading := true;
      error := None;
    }

    /** `cargarDatos`, given how the request ended and the time it ended.
        Success replaces the list, the counters and the notifications and
        clears the error; failure sets the error and keeps everything else.
        Loading ends either way. */
    method CargarDatos(respuesta: Respuesta, now: Timestamp)
      requires Valid()
      modifies this
      ensures Valid() && !loading
      ensures respuesta.Ok? ==>
        solicitudes == respuesta.data && stats == CalcularStats(respuesta.data)
        && notificaciones == Notificaciones(respuesta.data, now) && error == None
      ensures !respuesta.Ok? ==>
        solicitudes == old(solicitudes) && stats == old(stats)
        && notificaciones == old(notificaciones) && error == Some(MensajeDeCarga(respuesta))
    {
      loading := true;
      if respuesta.Ok? {
        var data := respuesta.data;
        var ns := ActualizarNotificaciones(data, now);
        solicitudes, stats, notificaciones, error := data, CalcularStats(data), ns, None;
      } else {
        error := Some(MensajeDeCarga(respuesta));
      }
      loading := false;
    }

    /** The "latest requests" panel, drawn once loading is over and no
        error is shown: it sorts the held list itself, newest first, and
        shows its first eight. The counters stay true of the reordered list. */
    method UltimasSolicitudes() returns (r: seq<Solicitud>)
      requires Valid() && !loading && error == None
      modifies this`solicitudes
      ensures Valid()
      ensures solicitudes == Ordenar(old(solicitudes))
      ensures r == Ultimas(old(solicitudes))
    {
      ghost var antes := solicitudes;
      solicitudes := Ordenar(solicitudes);
      r := Primeros(solicitudes, 8);
      OrdenarConservaCuentas(antes, EsPendiente);
      OrdenarConservaCuentas(antes, EsAprobada);
      OrdenarConservaCuentas(antes, EsRechazada);
    }
  }

  /** Drawing the panel again leaves the list as the first drawing left it. */
  lemma UltimasEstable(l: seq<Solicitud>)
    ensures Ordenar(Ordenar(l)) == Ordenar(l)
    ensures Ultimas(Ordenar(l)) == Ultimas(l)
  {
    OrdenarIdempotente(l);
  }
}
