/** The state of the coordinator's request page (`solicitudhomologacion/page.jsx`):
    the loaded list, the loading flag, the error banner and the filter
    criteria, with the handlers that replace them. */
module PaginaCoordinador {
  import opened Texto
  import opened Solicitudes
  import opened Secuencias
  import opened FiltroSolicitudes

  /** The prefix of the page's error banner. */
  const PREFIJO_ERROR := "No se pudieron cargar los datos: "

  class CoordinadorDashboard {
    var solicitudes: seq<Solicitud>
    var loading: bool
    var error: Option<string>
    var filtros: Filtros

    /** The table the page shows. */
    function Filtradas(): (r: seq<Solicitud>)
      reads this
      ensures EsSubsecuencia(r, solicitudes)
      ensures forall s :: s in r <==> s in solicitudes && Cumple(s, filtros)
    {
      SolicitudesFiltradas(solicitudes, filtros)
    }

    /** The first render: no data yet, loading, no error, no criteria. */
    constructor ()
      ensures solicitudes == [] && loading && error == None && filtros == SinFiltros
    {
      solicitudes := [];
      loading := true;
      error := None;
      filtros := SinFiltros;
    }

    /** `fetchSolicitudes`, given how the request ended: success installs the
        data and clears the banner; any failure empties the list and shows
        the error's message after the banner prefix. Loading ends either way. */
    method FetchSolicitudes(respuesta: Respuesta)
      modifies this
      ensures !loading
      ensures filtros == old(filtros)
      ensures respuesta.Ok? ==> solicitudes == respuesta.data && error == None
      ensures !respuesta.Ok? ==> solicitudes == [] && error == Some(PREFIJO_ERROR + MensajeDeFalla(respuesta))
      ensures error.Some? <==> !respuesta.Ok?
    {
      loading := true;
      if respuesta.Ok? {
        solicitudes := respuesta.data;
        error := None;
      } else {
        error := Some(PREFIJO_ERROR + MensajeDeFalla(respuesta));
        solicitudes := [];
      }
      loading := false;
    }

    /** `handleFiltroChange(campo, valor)`: only that criterion changes. */
    method HandleFiltroChange(campo: Campo, valor: string)
      modifies this
      ensures filtros == ConCampo(old(filtros), campo, valor)
      ensures ValorCampo(filtros, campo) == valor
      ensures forall c :: c != campo ==> ValorCampo(filtros, c) == ValorCampo(old(filtros), c)
      ensures solicitudes == old(solicitudes) && loading == old(loading) && error == old(error)
    {
      filtros := ConCampo(filtros, campo, valor);
    }

    /** `limpiarFiltros`: every criterion empty, so the table is the whole list. */
    method LimpiarFiltros()
      modifies this
      ensures filtros == SinFiltros
      ensures Filtradas() == solicitudes
      ensures solicitudes == old(solicitudes) && loading == old(loading) && error == old(error)
    {
      filtros := SinFiltros;
      FiltradasSinFiltros(solicitudes);
    }
  }
}
