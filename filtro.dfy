/** The derivations of the coordinator's request page
    (`solicitudhomologacion/page.jsx`): the filtered table, the distinct
    values offered by the two selectors, the quick statistics, the status
    badge and the rule that closed requests cannot be edited. */
module FiltroSolicitudes {
  import opened Texto
  import opened Solicitudes
  import opened Secuencias

  // ---------------------------------------------------------------------
  // Filter criteria

  /** The `filtros` record: an empty field sets no constraint. */
  datatype Filtros = Filtros(estado: string, fecha: string, carrera: string, estudiante: string)

  /** The four keys `handleFiltroChange` is called with. */
  datatype Campo = PorEstado | PorFecha | PorCarrera | PorEstudiante

  /** The record `limpiarFiltros` installs, which is also the initial one. */
  const SinFiltros := Filtros("", "", "", "")

  function ValorCampo(f: Filtros, c: Campo): string
  {
    match c
    case PorEstado => f.estado
    case PorFecha => f.fecha
    case PorCarrera => f.carrera
    case PorEstudiante => f.estudiante
  }

  /** `{ ...prev, [campo]: valor }`: field `c` becomes `v`, the others stay. */
  function ConCampo(f: Filtros, c: Campo, v: string): (g: Filtros)
    ensures ValorCampo(g, c) == v
    ensures forall d :: d != c ==> ValorCampo(g, d) == ValorCampo(f, d)
  {
    match c
    case PorEstado => f.(estado := v)
    case PorFecha => f.(fecha := v)
    case PorCarrera => f.(carrera := v)
    case PorEstudiante => f.(estudiante := v)
  }

  /** The criteria holding only field `c` of `f`. */
  function Solo(f: Filtros, c: Campo): Filtros
  {
    ConCampo(SinFiltros, c, ValorCampo(f, c))
  }

  // ---------------------------------------------------------------------
  // Matching one request

  /** `x || ''` for an optional text field. */
  function TextoO(x: Option<string>): string
  {
    if x.Some? then x.value else ""
  }

  /** `campo?.toLowerCase().includes(palabra)`: the lower-cased field
      contains the word; an absent field yields `undefined`, which never
      passes. The filter criteria, the quick statistics and the status
      badge all test a field this way. */
  predicate Contiene(campo: Option<string>, palabra: string)
  {
    campo.Some? && Incluye(Minuscula(campo.value), palabra)
  }

  /** The four name fields joined by single spaces, then trimmed: the
      result neither starts nor ends with white space. */
  function NombreCompleto(s: Solicitud): (r: string)
    ensures r == [] || (!EsEspacio(r[0]) && !EsEspacio(r[|r| - 1]))
  {
    Recortar(TextoO(s.primerNombre) + " " + TextoO(s.segundoNombre) + " "
      + TextoO(s.primerApellido) + " " + TextoO(s.segundoApellido))
  }

  /** The status criterion: off when empty; otherwise only a request with
      a status can pass, and a status equal to the query up to case does. */
  predicate CumpleEstado(s: Solicitud, f: Filtros)
    ensures f.estado == "" ==> CumpleEstado(s, f)
    ensures f.estado != "" && CumpleEstado(s, f) ==> s.estado.Some?
    ensures s.estado.Some? && Minuscula(s.estado.value) == Minuscula(f.estado) ==> CumpleEstado(s, f)
  {
    assert (s.estado.Some? && Minuscula(s.estado.value) == Minuscula(f.estado))
           ==> EsPrefijo(Minuscula(f.estado), Minuscula(s.estado.value));
    f.estado == "" || Contiene(s.estado, Minuscula(f.estado))
  }

  /** The date criterion: off when empty; otherwise the UTC day of the
      request, written `YYYY-MM-DD`, must be the query exactly. */
  predicate CumpleFecha(s: Solicitud, f: Filtros)
    ensures f.fecha == "" ==> CumpleFecha(s, f)
    ensures f.fecha != "" ==> (CumpleFecha(s, f) <==> DiaIso(s.fechaSolicitud) == f.fecha)
  {
    f.fecha == "" || DiaIso(s.fechaSolicitud) == f.fecha
  }

  /** The programme criterion, matched like the status one. */
  predicate CumpleCarrera(s: Solicitud, f: Filtros)
    ensures f.carrera == "" ==> CumpleCarrera(s, f)
    ensures f.carrera != "" && CumpleCarrera(s, f) ==> s.programaDestinoNombre.Some?
    ensures (s.programaDestinoNombre.Some?
             && Minuscula(s.programaDestinoNombre.value) == Minuscula(f.carrera)) ==> CumpleCarrera(s, f)
  {
    assert (s.programaDestinoNombre.Some? && Minuscula(s.programaDestinoNombre.value) == Minuscula(f.carrera))
           ==> EsPrefijo(Minuscula(f.carrera), Minuscula(s.programaDestinoNombre.value));
    f.carrera == "" || Contiene(s.programaDestinoNombre, Minuscula(f.carrera))
  }

  /** The search box matches the full name or the case number. */
  predicate CumpleEstudiante(s: Solicitud, f: Filtros)
    ensures f.estudiante == "" ==> CumpleEstudiante(s, f)
  {
    f.estudiante == ""
    || Incluye(Minuscula(NombreCompleto(s)), Minuscula(f.estudiante))
    || Contiene(s.numeroRadicado, Minuscula(f.estudiante))
  }

  /** The callback given to `solicitudes.filter`: every request passes
      the empty criteria. */
  predicate Cumple(s: Solicitud, f: Filtros)
    ensures f == SinFiltros ==> Cumple(s, f)
    ensures Cumple(s, f) ==> CumpleEstado(s, f) && CumpleFecha(s, f)
                             && CumpleCarrera(s, f) && CumpleEstudiante(s, f)
  {
    CumpleEstado(s, f) && CumpleFecha(s, f) && CumpleCarrera(s, f) && CumpleEstudiante(s, f)
  }

  function Criterio(f: Filtros): Solicitud -> bool
  {
    s => Cumple(s, f)
  }

  /** `solicitudesFiltradas`: the requests passing every active criterion,
      in their original order. */
  function SolicitudesFiltradas(l: seq<Solicitud>, f: Filtros): (r: seq<Solicitud>)
    ensures EsSubsecuencia(r, l)
    ensures forall s :: s in r <==> s in l && Cumple(s, f)
    ensures f.estado != "" ==> forall s :: s in r ==> s.estado.Some?
    ensures f.carrera != "" ==> forall s :: s in r ==> s.programaDestinoNombre.Some?
    ensures f.fecha != "" ==> forall s :: s in r ==> DiaIso(s.fechaSolicitud) == f.fecha
  {
    FiltrarEsSubsecuencia(l, Criterio(f));
    Filtrar(l, Criterio(f))
  }

  /** With every field empty the table shows the whole list. */
  lemma FiltradasSinFiltros(l: seq<Solicitud>)
    ensures SolicitudesFiltradas(l, SinFiltros) == l
  {
    FiltrarTodos(l, Criterio(SinFiltros));
  }

  /** Filtering the filtered table again changes nothing. */
  lemma FiltradasIdempotente(l: seq<Solicitud>, f: Filtros)
    ensures SolicitudesFiltradas(SolicitudesFiltradas(l, f), f) == SolicitudesFiltradas(l, f)
  {
    FiltrarIdempotente(l, Criterio(f));
  }

  /** Filtering by `p` and then by `q` is filtering by `r`, when `r` is `p` and `q`. */
  lemma {:induction false} FiltrarDosVeces(s: seq<Solicitud>, p: Solicitud -> bool,
                                          q: Solicitud -> bool, r: Solicitud -> bool)
    requires forall x :: r(x) == (p(x) && q(x))
    ensures Filtrar(Filtrar(s, p), q) == Filtrar(s, r)
  {
    if s != [] {
      FiltrarDosVeces(s[1..], p, q, r);
      FiltrarConcatenacion(if p(s[0]) then [s[0]] else [], Filtrar(s[1..], p), q);
    }
  }

  /** Each field of `g` is taken from `f` or from `h`, the other one being empty. */
  predicate Reparto(f: Filtros, h: Filtros, g: Filtros)
  {
    Parte(f.estado, h.estado, g.estado) && Parte(f.fecha, h.fecha, g.fecha)
    && Parte(f.carrera, h.carrera, g.carrera) && Parte(f.estudiante, h.estudiante, g.estudiante)
  }

  predicate Parte(x: string, y: string, z: string)
  {
    (x == "" && y == z) || (y == "" && x == z)
  }

  /** Splitting the fields between two criteria splits the test. */
  lemma CriterioConjuncion(f: Filtros, h: Filtros, g: Filtros)
    requires Reparto(f, h, g)
    ensures forall x :: Criterio(g)(x) == (Criterio(f)(x) && Criterio(h)(x))
  {
    forall x ensures Criterio(g)(x) == (Criterio(f)(x) && Criterio(h)(x)) {
      assert CumpleEstado(x, g) == (CumpleEstado(x, f) && CumpleEstado(x, h));
      assert CumpleFecha(x, g) == (CumpleFecha(x, f) && CumpleFecha(x, h));
      assert CumpleCarrera(x, g) == (CumpleCarrera(x, f) && CumpleCarrera(x, h));
      assert CumpleEstudiante(x, g) == (CumpleEstudiante(x, f) && CumpleEstudiante(x, h));
    }
  }

  /** The four criteria are independent: the filter is the four one-field
      filters applied one after another. */
  lemma FiltradasComposicion(l: seq<Solicitud>, f: Filtros)
    ensures SolicitudesFiltradas(l, f)
      == SolicitudesFiltradas(SolicitudesFiltradas(SolicitudesFiltradas(SolicitudesFiltradas(
           l, Solo(f, PorEstado)), Solo(f, PorFecha)), Solo(f, PorCarrera)), Solo(f, PorEstudiante))
  {
    var e, d, c, u := Solo(f, PorEstado), Solo(f, PorFecha), Solo(f, PorCarrera), Solo(f, PorEstudiante);
    var ed := Filtros(f.estado, f.fecha, "", "");
    var edc := Filtros(f.estado, f.fecha, f.carrera, "");
    CriterioConjuncion(e, d, ed);
    CriterioConjuncion(ed, c, edc);
    CriterioConjuncion(edc, u, f);
    FiltrarDosVeces(l, Criterio(e), Criterio(d), Criterio(ed));
    FiltrarDosVeces(l, Criterio(ed), Criterio(c), Criterio(edc));
    FiltrarDosVeces(l, Criterio(edc), Criterio(u), Criterio(f));
  }

  /** A case number that equals the query up to letter case is found. */
  lemma BusquedaPorRadicado(s: Solicitud, f: Filtros)
    requires s.numeroRadicado.Some? && Minuscula(s.numeroRadicado.value) == Minuscula(f.estudiante)
    ensures CumpleEstudiante(s, f)
  {
    assert EsPrefijo(Minuscula(f.estudiante), Minuscula(s.numeroRadicado.value));
  }

  /** Searching `RAD-001` finds the request numbered `rad-001`, and the
      other way round. */
  lemma BusquedaRadicadoEjemplo(s: Solicitud)
    requires s.numeroRadicado == Some("rad-001") || s.numeroRadicado == Some("RAD-001")
    ensures Cumple(s, Filtros("", "", "", "RAD-001"))
    ensures Cumple(s, Filtros("", "", "", "rad-001"))
  {
    assert Minuscula("RAD-001") == "rad-001";
    assert Minuscula("rad-001") == "rad-001";
    BusquedaPorRadicado(s, Filtros("", "", "", "RAD-001"));
    BusquedaPorRadicado(s, Filtros("", "", "", "rad-001"));
  }

  /** A query longer than both the full name and the case number finds
      nothing. */
  lemma ConsultaMasLarga(s: Solicitud, f: Filtros)
    requires |f.estudiante| > |NombreCompleto(s)| && |f.estudiante| > |TextoO(s.numeroRadicado)|
    ensures !CumpleEstudiante(s, f)
  {
    NoIncluyeMasLargo(Minuscula(NombreCompleto(s)), Minuscula(f.estudiante));
    if s.numeroRadicado.Some? {
      NoIncluyeMasLargo(Minuscula(s.numeroRadicado.value), Minuscula(f.estudiante));
    }
  }

  /** A missing second first name leaves two spaces in the middle of the
      full name, so the name written with one space is not found. */
  lemma NombreSinSegundoNombre(s: Solicitud)
    requires s.primerNombre == Some("Ana") && s.segundoNombre.None?
    requires s.primerApellido == Some("Ruiz") && s.segundoApellido.None? && s.numeroRadicado.None?
    ensures NombreCompleto(s) == "Ana  Ruiz"
    ensures CumpleEstudiante(s, Filtros("", "", "", "ana  ruiz"))
    ensures !CumpleEstudiante(s, Filtros("", "", "", "ana ruiz"))
  {
    NombreAnaRuiz(s);
    MinusculaAnaRuiz();
    assert EsPrefijo("ana  ruiz", "ana  ruiz");
    NoIncluyeAnaRuiz();
  }

  lemma NombreAnaRuiz(s: Solicitud)
    requires s.primerNombre == Some("Ana") && s.segundoNombre.None?
    requires s.primerApellido == Some("Ruiz") && s.segundoApellido.None?
    ensures NombreCompleto(s) == "Ana  Ruiz"
  {
    assert TextoO(s.primerNombre) + " " + TextoO(s.segundoNombre) + " "
      + TextoO(s.primerApellido) + " " + TextoO(s.segundoApellido) == "Ana  Ruiz ";
    RecorteAnaRuiz();
  }

  lemma MinusculaAnaRuiz()
    ensures Minuscula("Ana  Ruiz") == "ana  ruiz"
    ensures Minuscula("ana  ruiz") == "ana  ruiz"
    ensures Minuscula("ana ruiz") == "ana ruiz"
  {
  }

  lemma RecorteAnaRuiz()
    ensures Recortar("Ana  Ruiz ") == "Ana  Ruiz"
  {
    var t := "Ana  Ruiz ";
    assert !EsEspacio(t[0]) && !EsEspacio(t[8]) && EsEspacio(t[9]);
    RecortarFinal(t, 9);
    assert t[..9] == "Ana  Ruiz";
  }

  lemma NoIncluyeAnaRuiz()
    ensures !Incluye("ana  ruiz", "ana ruiz")
  {
    var n, q := "ana  ruiz", "ana ruiz";
    assert n[4] != q[4];
    assert n[1..][0] != q[0];
    assert n[1..][1..] == n[2..];
    NoIncluyeMasLargo(n[2..], q);
  }

  // ---------------------------------------------------------------------
  // Selector values: `estadosUnicos`, `carrerasUnicas`

  /** In the order `sort` puts strings, with no value twice. */
  predicate EstrictamenteCreciente(s: seq<string>)
  {
    forall i, j :: 0 <= i < j < |s| ==> Precede(s[i], s[j])
  }

  /** A string before the first of a strictly increasing list is before all of it. */
  lemma AntesDeTodos(x: string, s: seq<string>)
    requires EstrictamenteCreciente(s) && |s| > 0 && Precede(x, s[0])
    ensures forall j :: 0 <= j < |s| ==> Precede(x, s[j])
  {
    forall j | 0 < j < |s| ensures Precede(x, s[j]) {
      PrecedeTransitivo(x, s[0], s[j]);
    }
  }

  /** Add `x` to a strictly increasing list unless it is already there. */
  function InsertarUnico(s: seq<string>, x: string): (r: seq<string>)
    requires EstrictamenteCreciente(s)
    ensures EstrictamenteCreciente(r)
    ensures forall y :: y in r <==> y in s || y == x
  {
    if s == [] then [x]
    else if x == s[0] then s
    else if Precede(x, s[0]) then
      AntesDeTodos(x, s);
      [x] + s
    else
      PrecedeTotal(x, s[0]);
      var resto := InsertarUnico(s[1..], x);
      assert forall y :: y in resto ==> Precede(s[0], y);
      [s[0]] + resto
  }

  /** `[...new Set(vals.filter(Boolean))].sort()`: the present, non-empty
      values, each once, in sorted order. */
  function Unicos(vals: seq<Option<string>>): (r: seq<string>)
    ensures EstrictamenteCreciente(r)
    ensures forall v :: v in r <==> v != "" && Some(v) in vals
  {
    if vals == [] then []
    else
      var resto := Unicos(vals[1..]);
      assert forall v :: Some(v) in vals <==> vals[0] == Some(v) || Some(v) in vals[1..];
      if vals[0].Some? && vals[0].value != "" then InsertarUnico(resto, vals[0].value) else resto
  }

  /** A strictly increasing list holds no value twice. */
  lemma CrecienteSinRepetidos(s: seq<string>)
    requires EstrictamenteCreciente(s)
    ensures forall i, j :: 0 <= i < j < |s| ==> s[i] != s[j]
  {
    forall i, j | 0 <= i < j < |s| ensures s[i] != s[j] {
      PrecedeIrreflexivo(s[i]);
    }
  }

  /** Two strictly increasing lists with the same values are the same list:
      whatever order `new Set` produced, `sort` ends in this one. */
  lemma {:induction false} CrecienteUnica(a: seq<string>, b: seq<string>)
    requires EstrictamenteCreciente(a) && EstrictamenteCreciente(b)
    requires forall v :: v in a <==> v in b
    ensures a == b
  {
    assert a != [] ==> a[0] in b;
    assert b != [] ==> b[0] in a;
    if a != [] {
      if a[0] != b[0] {
        assert a[0] in b && b[0] in a;
        var i :| 0 <= i < |a| && a[i] == b[0];
        var j :| 0 <= j < |b| && b[j] == a[0];
        PrecedeAsimetrico(a[0], b[0]);
        assert false;
      }
      forall v ensures v in a[1..] <==> v in b[1..] {
        if v in a[1..] {
          var i :| 1 <= i < |a| && a[i] == v;
          assert Precede(a[0], a[i]);
          PrecedeIrreflexivo(v);
          assert v in a && v in b;
          var j :| 0 <= j < |b| && b[j] == v;
          assert j != 0;
          assert b[1..][j - 1] == v;
        }
        if v in b[1..] {
          var j :| 1 <= j < |b| && b[j] == v;
          assert Precede(b[0], b[j]);
          PrecedeIrreflexivo(v);
          assert v in b && v in a;
          var i :| 0 <= i < |a| && a[i] == v;
          assert i != 0;
          assert a[1..][i - 1] == v;
        }
      }
      CrecienteUnica(a[1..], b[1..]);
      assert a == [a[0]] + a[1..] && b == [b[0]] + b[1..];
    }
  }

  function Estados(l: seq<Solicitud>): seq<Option<string>>
  {
    seq(|l|, i requires 0 <= i < |l| => l[i].estado)
  }

  function Carreras(l: seq<Solicitud>): seq<Option<string>>
  {
    seq(|l|, i requires 0 <= i < |l| => l[i].programaDestinoNombre)
  }

  /** The statuses offered by the status selector. */
  function EstadosUnicos(l: seq<Solicitud>): (r: seq<string>)
    ensures EstrictamenteCreciente(r)
    ensures forall i, j :: 0 <= i < j < |r| ==> r[i] != r[j]
    ensures forall v :: v in r <==> v != "" && exists i :: 0 <= i < |l| && l[i].estado == Some(v)
  {
    var r := Unicos(Estados(l));
    CrecienteSinRepetidos(r);
    forall v ensures Some(v) in Estados(l) <==> exists i :: 0 <= i < |l| && l[i].estado == Some(v) {
      if Some(v) in Estados(l) {
        var i :| 0 <= i < |l| && Estados(l)[i] == Some(v);
        assert l[i].estado == Some(v);
      }
      if exists i :: 0 <= i < |l| && l[i].estado == Some(v) {
        var i :| 0 <= i < |l| && l[i].estado == Some(v);
        assert Estados(l)[i] == Some(v);
      }
    }
    r
  }

  /** The programmes offered by the programme selector. */
  function CarrerasUnicas(l: seq<Solicitud>): (r: seq<string>)
    ensures EstrictamenteCreciente(r)
    ensures forall i, j :: 0 <= i < j < |r| ==> r[i] != r[j]
    ensures forall v :: v in r <==> v != "" && exists i :: 0 <= i < |l| && l[i].programaDestinoNombre == Some(v)
  {
    var r := Unicos(Carreras(l));
    CrecienteSinRepetidos(r);
    forall v ensures Some(v) in Carreras(l) <==> exists i :: 0 <= i < |l| && l[i].programaDestinoNombre == Some(v) {
      if Some(v) in Carreras(l) {
        var i :| 0 <= i < |l| && Carreras(l)[i] == Some(v);
        assert l[i].programaDestinoNombre == Some(v);
      }
      if exists i :: 0 <= i < |l| && l[i].programaDestinoNombre == Some(v) {
        var i :| 0 <= i < |l| && l[i].programaDestinoNombre == Some(v);
        assert Carreras(l)[i] == Some(v);
      }
    }
    r
  }

  /** Any sorted, duplicate-free listing of the statuses is `EstadosUnicos`. */
  lemma EstadosUnicosDeterminados(l: seq<Solicitud>, r: seq<string>)
    requires EstrictamenteCreciente(r)
    requires forall v :: v in r <==> v != "" && exists i :: 0 <= i < |l| && l[i].estado == Some(v)
    ensures r == EstadosUnicos(l)
  {
    CrecienteUnica(r, EstadosUnicos(l));
  }

  // ---------------------------------------------------------------------
  // Quick statistics: `estadisticas`

  datatype Estadisticas = Estadisticas(total: nat, pendientes: nat, enRevision: nat, aprobadas: nat)

  /** `s => s.estado?.toLowerCase().includes(palabra)`. */
  function ConEstado(palabra: string): Solicitud -> bool
  {
    (s: Solicitud) => Contiene(s.estado, palabra)
  }

  function CalcularEstadisticas(l: seq<Solicitud>): (e: Estadisticas)
    ensures e.total == |l|
    ensures e.pendientes <= e.total && e.enRevision <= e.total && e.aprobadas <= e.total
  {
    Estadisticas(|l|, |Filtrar(l, ConEstado("radicado"))|, |Filtrar(l, ConEstado("revisión"))|,
                 |Filtrar(l, ConEstado("aprobado"))|)
  }

  function SumaEstadisticas(a: Estadisticas, b: Estadisticas): Estadisticas
  {
    Estadisticas(a.total + b.total, a.pendientes + b.pendientes, a.enRevision + b.enRevision,
                 a.aprobadas + b.aprobadas)
  }

  function Uno(b: bool): nat
  {
    if b then 1 else 0
  }

  /** One request adds one to the total and one to each bucket whose word
      its lower-cased status contains (possibly several, possibly none). */
  lemma EstadisticasDeUna(s: Solicitud)
    ensures CalcularEstadisticas([s]) == Estadisticas(1, Uno(Contiene(s.estado, "radicado")),
              Uno(Contiene(s.estado, "revisión")), Uno(Contiene(s.estado, "aprobado")))
  {
    assert [s][1..] == [];
  }

  /** The statistics of a list are the sums over its parts. */
  lemma EstadisticasConcatenadas(a: seq<Solicitud>, b: seq<Solicitud>)
    ensures CalcularEstadisticas(a + b) == SumaEstadisticas(CalcularEstadisticas(a), CalcularEstadisticas(b))
  {
    FiltrarConcatenacion(a, b, ConEstado("radicado"));
    FiltrarConcatenacion(a, b, ConEstado("revisión"));
    FiltrarConcatenacion(a, b, ConEstado("aprobado"));
  }

  // ---------------------------------------------------------------------
  // Status badge and edit button

  /** The five badge styles, by colour. */
  datatype Insignia = Esmeralda | Roja | Ambar | Celeste | Pizarra

  /** `getBadgeClass`: the first keyword found, in the order aprobado,
      rechazado, revisión, radicado, picks the colour; none gives slate. */
  function GetBadgeClass(estado: Option<string>): (b: Insignia)
    ensures b == Esmeralda <==> Contiene(estado, "aprobado")
    ensures b == Roja <==> !Contiene(estado, "aprobado") && Contiene(estado, "rechazado")
    ensures b == Ambar <==> !Contiene(estado, "aprobado") && !Contiene(estado, "rechazado")
                            && Contiene(estado, "revisión")
    ensures b == Celeste <==> !Contiene(estado, "aprobado") && !Contiene(estado, "rechazado")
                              && !Contiene(estado, "revisión") && Contiene(estado, "radicado")
    ensures estado.None? ==> b == Pizarra
  {
    var e := if estado.Some? then Minuscula(estado.value) else "";
    if Incluye(e, "aprobado") then Esmeralda
    else if Incluye(e, "rechazado") then Roja
    else if Incluye(e, "revisión") then Ambar
    else if Incluye(e, "radicado") then Celeste
    else Pizarra
  }

  /** The badge and the quick statistics test the status the same way:
      a request is counted as approved exactly when its badge is emerald. */
  lemma InsigniaSegunEstadisticas(s: Solicitud)
    ensures GetBadgeClass(s.estado) == Esmeralda <==> CalcularEstadisticas([s]).aprobadas == 1
  {
    EstadisticasDeUna(s);
  }

  /** The edit button is enabled unless the lower-cased status is exactly
      `cerrado`. */
  predicate EdicionPermitida(s: Solicitud)
    ensures s.estado.None? ==> EdicionPermitida(s)
    ensures !EdicionPermitida(s) ==> |s.estado.value| == 7
  {
    !(s.estado.Some? && Minuscula(s.estado.value) == "cerrado")
  }

  /** A closed request has the slate badge and is counted in no bucket of
      the statistics, since every keyword is longer than `cerrado`. */
  lemma CerradaSinCategoria(s: Solicitud)
    requires !EdicionPermitida(s)
    ensures GetBadgeClass(s.estado) == Pizarra
    ensures CalcularEstadisticas([s]) == Estadisticas(1, 0, 0, 0)
  {
    var e := Minuscula(s.estado.value);
    NoIncluyeMasLargo(e, "aprobado");
    NoIncluyeMasLargo(e, "rechazado");
    NoIncluyeMasLargo(e, "revisión");
    NoIncluyeMasLargo(e, "radicado");
    EstadisticasDeUna(s);
  }

  /** `Cerrado` and `CERRADO` both lock the edit button. */
  lemma CerradaSinMayusculas(s: Solicitud)
    requires s.estado == Some("Cerrado") || s.estado == Some("CERRADO")
    ensures !EdicionPermitida(s)
  {
    assert Minuscula("Cerrado") == "cerrado";
    assert Minuscula("CERRADO") == "cerrado";
  }
}
