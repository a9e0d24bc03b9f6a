/** The derivations of the coordinator's home dashboard (`Views/home.jsx`):
    the status counters, the date-descending order of the request list,
    the notifications built from it and the "latest requests" panel. */
module Tablero {
  import opened Texto
  import opened Solicitudes
  import opened Secuencias
  import opened FiltroSolicitudes

  // ---------------------------------------------------------------------
  // Status buckets, by exact equality

  predicate EsPendiente(s: Solicitud)
  {
    s.estado == Some("Radicado") || s.estado == Some("En revisión")
  }

  predicate EsAprobada(s: Solicitud)
  {
    s.estado == Some("Aprobado")
  }

  predicate EsRechazada(s: Solicitud)
  {
    s.estado == Some("Rechazado")
  }

  /** The four counters of the `stats` state. */
  datatype Stats = Stats(totalSolicitudes: nat, pendientes: nat, aprobadas: nat, rechazadas: nat)

  /** A request starts the dashboard in no bucket. */
  const StatsIniciales := Stats(0, 0, 0, 0)

  /** The counters `cargarDatos` computes from the fetched list. No request
      lies in two buckets, so together they never exceed the total. */
  function CalcularStats(l: seq<Solicitud>): (st: Stats)
    ensures st.totalSolicitudes == |l|
    ensures st.pendientes + st.aprobadas + st.rechazadas <= st.totalSolicitudes
  {
    FiltrarDisjuntos(l, EsPendiente, EsAprobada, EsRechazada);
    Stats(|l|, |Filtrar(l, EsPendiente)|, |Filtrar(l, EsAprobada)|, |Filtrar(l, EsRechazada)|)
  }

  /** `en revisión` contains `revisión` from its fourth character on. */
  lemma RevisionEnEnRevision()
    ensures Incluye("en revisión", "revisión")
  {
    var e := "en revisión";
    assert e[3..] == "revisión";
    IncluyeEn(e, "revisión", 3);
  }

  /** The home counters never exceed the request page's, which match by
      case-insensitive substring: `Aprobado` contains `aprobado`, `Radicado`
      `radicado`, `En revisión` `revisión`. */
  lemma StatsFrenteAPagina(l: seq<Solicitud>)
    ensures CalcularStats(l).aprobadas <= CalcularEstadisticas(l).aprobadas
    ensures CalcularStats(l).pendientes <= CalcularEstadisticas(l).pendientes + CalcularEstadisticas(l).enRevision
  {
    assert Minuscula("Aprobado") == "aprobado";
    assert Minuscula("Radicado") == "radicado";
    assert Minuscula("En revisión") == "en revisión";
    assert EsPrefijo("aprobado", "aprobado");
    assert EsPrefijo("radicado", "radicado");
    RevisionEnEnRevision();
    FiltrarMonotono(l, EsAprobada, ConEstado("aprobado"));
    FiltrarUnion(l, ConEstado("radicado"), ConEstado("revisión"), EsPendiente);
  }

  /** The colour `getStatusColor` gives the status pill of a request. */
  datatype Color = Verde | Rojo | Amarillo | Azul

  function ColorEstado(estado: Option<string>): (c: Color)
    ensures c == Verde <==> estado == Some("Aprobado")
    ensures c == Rojo <==> estado == Some("Rechazado")
    ensures c == Amarillo <==> estado == Some("En revisión")
  {
    if estado == Some("Aprobado") then Verde
    else if estado == Some("Rechazado") then Rojo
    else if estado == Some("En revisión") then Amarillo
    else Azul
  }

  /** A pill is green or red exactly for the requests the approved and
      rejected counters count, and a pending request is yellow or blue. */
  lemma ColorSegunContadores(s: Solicitud)
    ensures ColorEstado(s.estado) == Verde <==> EsAprobada(s)
    ensures ColorEstado(s.estado) == Rojo <==> EsRechazada(s)
    ensures EsPendiente(s) ==> ColorEstado(s.estado) in {Amarillo, Azul}
  {
  }

  // ---------------------------------------------------------------------
  // Date-descending order: `sort((a, b) => new Date(b.fecha) - new Date(a.fecha))`

  /** Every request is at least as recent as the ones after it. */
  predicate NoCreciente(s: seq<Solicitud>)
  {
    forall i, j :: 0 <= i < j < |s| ==> s[j].fechaSolicitud <= s[i].fechaSolicitud
  }

  /** Place `x` before the first request no more recent than it. Equal
      dates keep `x` first, as a stable sort keeps an earlier element first. */
  function Insertar(x: Solicitud, s: seq<Solicitud>): (r: seq<Solicitud>)
    ensures |r| == |s| + 1
    ensures multiset(r) == multiset(s) + multiset{x}
  {
    if s == [] || s[0].fechaSolicitud <= x.fechaSolicitud then
      [x] + s
    else
      assert s == [s[0]] + s[1..];
      [s[0]] + Insertar(x, s[1..])
  }

  /** A request no older than any of a date-descending list can head it. */
  lemma DelanteOrdenada(y: Solicitud, s: seq<Solicitud>)
    requires NoCreciente(s)
    requires forall z :: z in s ==> z.fechaSolicitud <= y.fechaSolicitud
    ensures NoCreciente([y] + s)
  {
    var r := [y] + s;
    forall i, j | 0 <= i < j < |r| ensures r[j].fechaSolicitud <= r[i].fechaSolicitud {
      assert r[j] == s[j - 1];
      if i > 0 {
        assert r[i] == s[i - 1];
      } else {
        assert s[j - 1] in s;
      }
    }
  }

  lemma {:induction false} InsertarOrdenada(x: Solicitud, s: seq<Solicitud>)
    requires NoCreciente(s)
    ensures NoCreciente(Insertar(x, s))
  {
    if s == [] || s[0].fechaSolicitud <= x.fechaSolicitud {
      forall z | z in s ensures z.fechaSolicitud <= x.fechaSolicitud {
        var k :| 0 <= k < |s| && s[k] == z;
        assert k == 0 || s[k].fechaSolicitud <= s[0].fechaSolicitud;
      }
      DelanteOrdenada(x, s);
    } else {
      assert NoCreciente(s[1..]);
      InsertarOrdenada(x, s[1..]);
      var resto := Insertar(x, s[1..]);
      forall y | y in resto ensures y.fechaSolicitud <= s[0].fechaSolicitud {
        assert y in multiset(resto);
        if y != x {
          assert y in multiset(s[1..]);
          var k :| 0 <= k < |s[1..]| && s[1..][k] == y;
          assert s[k + 1] == y;
        }
      }
      DelanteOrdenada(s[0], resto);
    }
  }

  /** The list in date-descending order; requests with equal dates stay
      in the order they came in (the sort is stable). */
  function Ordenar(s: seq<Solicitud>): (r: seq<Solicitud>)
    ensures |r| == |s|
    ensures multiset(r) == multiset(s)
    ensures NoCreciente(r)
  {
    if s == [] then []
    else
      assert s == [s[0]] + s[1..];
      var resto := Ordenar(s[1..]);
      InsertarOrdenada(s[0], resto);
      Insertar(s[0], resto)
  }

  /** A request is in the sorted list exactly when it is in the input. */
  lemma OrdenarMismos(s: seq<Solicitud>, x: Solicitud)
    ensures x in Ordenar(s) <==> x in s
  {
    assert x in Ordenar(s) <==> x in multiset(Ordenar(s));
    assert x in s <==> x in multiset(s);
  }

  /** The requests dated exactly `t`. */
  function ConFecha(t: int): Solicitud -> bool
  {
    (s: Solicitud) => s.fechaSolicitud == t
  }

  lemma FiltrarCabeza(x: Solicitud, s: seq<Solicitud>, p: Solicitud -> bool)
    ensures Filtrar([x] + s, p) == (if p(x) then [x] else []) + Filtrar(s, p)
  {
    assert ([x] + s)[1..] == s;
  }

  lemma {:induction false} InsertarEstable(x: Solicitud, s: seq<Solicitud>, t: int)
    ensures Filtrar(Insertar(x, s), ConFecha(t)) == Filtrar([x] + s, ConFecha(t))
  {
    var p := ConFecha(t);
    if s != [] && s[0].fechaSolicitud > x.fechaSolicitud {
      var y, resto := s[0], s[1..];
      var cx, cy := (if p(x) then [x] else []), (if p(y) then [y] else []);
      // `x` is strictly older than `y`, so at most one of them is dated `t`.
      assert cx == [] || cy == [];
      calc {
        Filtrar(Insertar(x, s), p);
        { assert Insertar(x, s) == [y] + Insertar(x, resto); }
        Filtrar([y] + Insertar(x, resto), p);
        { FiltrarCabeza(y, Insertar(x, resto), p); }
        cy + Filtrar(Insertar(x, resto), p);
        { InsertarEstable(x, resto, t); }
        cy + Filtrar([x] + resto, p);
        { FiltrarCabeza(x, resto, p); }
        cy + (cx + Filtrar(resto, p));
        cx + (cy + Filtrar(resto, p));
        { assert s == [y] + resto; FiltrarCabeza(y, resto, p); }
        cx + Filtrar(s, p);
        { FiltrarCabeza(x, s, p); }
        Filtrar([x] + s, p);
      }
    } else {
      FiltrarCabeza(x, s, p);
    }
  }

  /** Stability: the requests sharing any one date come out in input order. */
  lemma {:induction false} OrdenarEstable(s: seq<Solicitud>, t: int)
    ensures Filtrar(Ordenar(s), ConFecha(t)) == Filtrar(s, ConFecha(t))
  {
    if s != [] {
      OrdenarEstable(s[1..], t);
      InsertarEstable(s[0], Ordenar(s[1..]), t);
      FiltrarCabeza(s[0], Ordenar(s[1..]), ConFecha(t));
      assert s == [s[0]] + s[1..];
      FiltrarCabeza(s[0], s[1..], ConFecha(t));
    }
  }

  lemma {:induction false} InsertarCuenta(x: Solicitud, s: seq<Solicitud>, p: Solicitud -> bool)
    ensures |Filtrar(Insertar(x, s), p)| == |Filtrar([x] + s, p)|
  {
    FiltrarCabeza(x, s, p);
    if s != [] && s[0].fechaSolicitud > x.fechaSolicitud {
      InsertarCuenta(x, s[1..], p);
      FiltrarCabeza(s[0], Insertar(x, s[1..]), p);
      FiltrarCabeza(x, s[1..], p);
      assert s == [s[0]] + s[1..];
      FiltrarCabeza(s[0], s[1..], p);
    }
  }

  /** Sorting changes no count: as many requests pass any test before as after. */
  lemma {:induction false} OrdenarConservaCuentas(s: seq<Solicitud>, p: Solicitud -> bool)
    ensures |Filtrar(Ordenar(s), p)| == |Filtrar(s, p)|
  {
    if s != [] {
      OrdenarConservaCuentas(s[1..], p);
      InsertarCuenta(s[0], Ordenar(s[1..]), p);
      FiltrarCabeza(s[0], Ordenar(s[1..]), p);
      assert s == [s[0]] + s[1..];
      FiltrarCabeza(s[0], s[1..], p);
    }
  }

  /** A list already in date-descending order is left as it is, so sorting
      twice is sorting once. */
  lemma {:induction false} OrdenarOrdenada(s: seq<Solicitud>)
    requires NoCreciente(s)
    ensures Ordenar(s) == s
  {
    if s != [] {
      assert NoCreciente(s[1..]);
      OrdenarOrdenada(s[1..]);
    }
  }

  lemma OrdenarIdempotente(s: seq<Solicitud>)
    ensures Ordenar(Ordenar(s)) == Ordenar(s)
  {
    OrdenarOrdenada(Ordenar(s));
  }

  /** Taking out requests keeps the order. */
  lemma {:induction false} FiltrarNoCreciente(s: seq<Solicitud>, p: Solicitud -> bool)
    requires NoCreciente(s)
    ensures NoCreciente(Filtrar(s, p))
  {
    if s != [] {
      assert NoCreciente(s[1..]);
      FiltrarNoCreciente(s[1..], p);
      assert forall y :: y in Filtrar(s[1..], p) ==> y in s[1..];
      assert forall y :: y in s[1..] ==> y.fechaSolicitud <= s[0].fechaSolicitud;
    }
  }

  /** The first `n` of a date-descending list are its `n` most recent:
      any request left out is no more recent than any one taken. */
  lemma MasRecientes(s: seq<Solicitud>, n: nat, x: Solicitud)
    requires NoCreciente(s) && x in s && x !in Primeros(s, n)
    ensures forall i :: 0 <= i < |Primeros(s, n)| ==> x.fechaSolicitud <= Primeros(s, n)[i].fechaSolicitud
  {
    var k :| 0 <= k < |s| && s[k] == x;
    assert k >= |Primeros(s, n)|;
  }

  // ---------------------------------------------------------------------
  // Notifications: `actualizarNotificaciones`

  datatype Tipo = Info | Warning | Success | Error

  /** A notification as the panel shows it; `fecha` is a timestamp. */
  datatype Notificacion = Notificacion(id: string, mensaje: string, tipo: Tipo, fecha: Timestamp)

  /** Which of the two kinds of resolved request a notice is about. */
  datatype Resolucion = Aprobada | Rechazada

  const ID_NUEVAS := "nuevas-solicitudes"
  const ID_DEMORADAS := "pendientes-demoradas"

  /** A request that is less than a day old at `now`. */
  function Reciente(now: Timestamp): Solicitud -> bool
  {
    (s: Solicitud) => now - s.fechaSolicitud < MS_POR_DIA
  }

  /** A pending request older than seven days at `now`. */
  function Demorada(now: Timestamp): Solicitud -> bool
  {
    (s: Solicitud) => EsPendiente(s) && now - s.fechaSolicitud > 7 * MS_POR_DIA
  }

  /** The singular or plural ending. */
  function Plural(n: nat, terminacion: string): string
  {
    if n > 1 then terminacion else ""
  }

  /** `${n} nueva${...} solicitud${...} en las últimas 24 horas`. */
  function MensajeNuevas(n: nat): string
  {
    NatATexto(n) + " nueva" + Plural(n, "s") + " solicitud" + Plural(n, "es") + " en las últimas 24 horas"
  }

  /** `${n} solicitud${...} pendiente${...} por más de 7 días`. */
  function MensajeDemoradas(n: nat): string
  {
    NatATexto(n) + " solicitud" + Plural(n, "es") + " pendiente" + Plural(n, "s") + " por más de 7 días"
  }

  /** One new request reads "nueva solicitud", more read "nuevas solicitudes". */
  lemma PluralNuevas(n: nat)
    requires n >= 1
    ensures n == 1 ==> MensajeNuevas(n) == NatATexto(n) + " nueva" + " solicitud" + " en las últimas 24 horas"
    ensures n > 1 ==> MensajeNuevas(n) == NatATexto(n) + " nuevas" + " solicitudes" + " en las últimas 24 horas"
  {
    var a, t := NatATexto(n), " en las últimas 24 horas";
    if n == 1 {
      assert a + " nueva" + "" == a + " nueva";
      assert a + " nueva" + " solicitud" + "" == a + " nueva" + " solicitud";
    } else {
      assert " nueva" + "s" == " nuevas";
      assert " solicitud" + "es" == " solicitudes";
      assert a + " nueva" + "s" == a + " nuevas";
      assert a + " nuevas" + " solicitud" + "es" == a + " nuevas" + " solicitudes";
    }
  }

  /** One delayed request reads "solicitud pendiente", more read
      "solicitudes pendientes". */
  lemma PluralDemoradas(n: nat)
    requires n >= 1
    ensures n == 1 ==> MensajeDemoradas(n) == NatATexto(n) + " solicitud" + " pendiente" + " por más de 7 días"
    ensures n > 1 ==> MensajeDemoradas(n) == NatATexto(n) + " solicitudes" + " pendientes" + " por más de 7 días"
  {
    var a := NatATexto(n);
    if n == 1 {
      assert a + " solicitud" + "" == a + " solicitud";
      assert a + " solicitud" + " pendiente" + "" == a + " solicitud" + " pendiente";
    } else {
      assert " solicitud" + "es" == " solicitudes";
      assert " pendiente" + "s" == " pendientes";
      assert a + " solicitud" + "es" == a + " solicitudes";
      assert a + " solicitudes" + " pendiente" + "s" == a + " solicitudes" + " pendientes";
    }
  }

  /** A field interpolated into a template literal: absent is `undefined`. */
  function Mostrar(x: Option<string>): string
  {
    if x.Some? then x.value else "undefined"
  }

  /** The text of a resolved request's notice, from the case number, the
      name and the closing word. */
  function MensajeResuelta(rad: string, nombre: string, verbo: string): string
  {
    "Solicitud " + rad + " de " + nombre + verbo
  }

  /** The notice for one approved or rejected request, dated as the request. */
  function AvisoResuelta(s: Solicitud, r: Resolucion): (n: Notificacion)
    ensures n.fecha == s.fechaSolicitud
    ensures n.tipo == (if r == Aprobada then Success else Error)
    ensures var p := if r == Aprobada then "aprobada-" else "rechazada-";
      |p| < |n.id| && n.id[..|p|] == p && SoloDigitos(n.id[|p|..]) && TextoANat(n.id[|p|..]) == s.id
  {
    var (prefijo, verbo, tipo) := if r == Aprobada then ("aprobada-", " aprobada", Success)
                                  else ("rechazada-", " rechazada", Error);
    var d := NatATexto(s.id);
    assert (prefijo + d)[..|prefijo|] == prefijo && (prefijo + d)[|prefijo|..] == d;
    TextoANatDeNatATexto(s.id);
    Notificacion(prefijo + d,
      MensajeResuelta(Mostrar(s.numeroRadicado), Mostrar(s.primerNombre) + " " + Mostrar(s.primerApellido),
                      verbo),
      tipo, s.fechaSolicitud)
  }

  /** Requests with different ids get notices with different ids. */
  lemma AvisoIdsDistintos(a: Solicitud, b: Solicitud, r: Resolucion)
    requires a.id != b.id
    ensures AvisoResuelta(a, r).id != AvisoResuelta(b, r).id
  {
    var p := if r == Aprobada then "aprobada-" else "rechazada-";
    var x, y := AvisoResuelta(a, r).id, AvisoResuelta(b, r).id;
    assert TextoANat(x[|p|..]) == a.id && TextoANat(y[|p|..]) == b.id;
  }

  /** The notice reads "Solicitud <case number> de <first name> <first
      surname>" followed by " aprobada" or " rechazada". */
  lemma AvisoResueltaMensaje(s: Solicitud, r: Resolucion)
    ensures var m, rad := AvisoResuelta(s, r).mensaje, Mostrar(s.numeroRadicado);
      10 + |rad| <= |m| && m[..10] == "Solicitud " && m[10..10 + |rad|] == rad
    ensures Incluye(AvisoResuelta(s, r).mensaje, Mostrar(s.primerNombre) + " " + Mostrar(s.primerApellido))
    ensures var m, v := AvisoResuelta(s, r).mensaje, if r == Aprobada then " aprobada" else " rechazada";
      |v| <= |m| && m[|m| - |v|..] == v
  {
    var v := if r == Aprobada then " aprobada" else " rechazada";
    MensajeForma(Mostrar(s.numeroRadicado), Mostrar(s.primerNombre) + " " + Mostrar(s.primerApellido), v);
  }

  /** How the message text splits into the case number, the name and the
      closing word. */
  lemma MensajeForma(rad: string, nombre: string, v: string)
    ensures var m := MensajeResuelta(rad, nombre, v);
      10 + |rad| <= |m| && m[..10] == "Solicitud " && m[10..10 + |rad|] == rad
      && |v| <= |m| && m[|m| - |v|..] == v
    ensures Incluye(MensajeResuelta(rad, nombre, v), nombre)
  {
    var m := MensajeResuelta(rad, nombre, v);
    var cabeza := "Solicitud " + rad + " de ";
    TresPartes("Solicitud ", rad, " de " + nombre + v);
    TresPartes(cabeza, nombre, v);
    IncluyeEn(m, nombre, |cabeza|);
  }

  /** The three parts of a concatenation are its slices. */
  lemma TresPartes(a: string, b: string, c: string)
    ensures var m := a + b + c;
      m[..|a|] == a && m[|a|..|a| + |b|] == b && m[|a| + |b|..] == c
  {
  }

  function Avisos(s: seq<Solicitud>, r: Resolucion): (ns: seq<Notificacion>)
    ensures |ns| == |s|
    ensures forall i :: 0 <= i < |s| ==> ns[i] == AvisoResuelta(s[i], r)
  {
    seq(|s|, i requires 0 <= i < |s| => AvisoResuelta(s[i], r))
  }

  /** The "new in the last 24 hours" notice, if any request is that recent. */
  function AvisoNuevas(ord: seq<Solicitud>, now: Timestamp): (r: seq<Notificacion>)
    ensures |r| <= 1
    ensures r != [] ==> r[0].id == ID_NUEVAS && r[0].tipo == Info && r[0].fecha == now
  {
    var n := |Filtrar(ord, Reciente(now))|;
    if n > 0 then [Notificacion(ID_NUEVAS, MensajeNuevas(n), Info, now)] else []
  }

  /** The "pending over seven days" notice, if any request is that late. */
  function AvisoDemoradas(ord: seq<Solicitud>, now: Timestamp): (r: seq<Notificacion>)
    ensures |r| <= 1
    ensures r != [] ==> r[0].id == ID_DEMORADAS && r[0].tipo == Warning && r[0].fecha == now
  {
    var n := |Filtrar(ord, Demorada(now))|;
    if n > 0 then [Notificacion(ID_DEMORADAS, MensajeDemoradas(n), Warning, now)] else []
  }

  /** The up to three most recent requests in bucket `p`. */
  function TresMasRecientes(ord: seq<Solicitud>, p: Solicitud -> bool): (r: seq<Solicitud>)
    ensures |r| <= 3
    ensures forall y :: y in r ==> y in ord && p(y)
  {
    Primeros(Filtrar(ord, p), 3)
  }

  /** The list `actualizarNotificaciones` installs: on the date-descending
      copy of `l`, the 24-hour notice, the delay notice, then the approved
      and the rejected notices. */
  function Notificaciones(l: seq<Solicitud>, now: Timestamp): (ns: seq<Notificacion>)
    ensures |ns| <= 8
    ensures l == [] ==> ns == []
  {
    var ord := Ordenar(l);
    AvisoNuevas(ord, now) + AvisoDemoradas(ord, now)
      + Avisos(TresMasRecientes(ord, EsAprobada), Aprobada)
      + Avisos(TresMasRecientes(ord, EsRechazada), Rechazada)
  }

  function DeTipo(t: Tipo): Notificacion -> bool
  {
    (n: Notificacion) => n.tipo == t
  }

  /** The position of each kind in the list. */
  function Rango(t: Tipo): nat
  {
    match t
    case Info => 0
    case Warning => 1
    case Success => 2
    case Error => 3
  }

  predicate TodosDeTipo(s: seq<Notificacion>, t: Tipo)
  {
    forall i :: 0 <= i < |s| ==> s[i].tipo == t
  }

  lemma SoloTipo(s: seq<Notificacion>, t: Tipo, u: Tipo)
    requires TodosDeTipo(s, t)
    ensures Filtrar(s, DeTipo(u)) == if u == t then s else []
  {
    if u == t {
      FiltrarTodos(s, DeTipo(u));
    } else {
      FiltrarNinguno(s, DeTipo(u));
    }
  }

  /** The part of the list that holds the notices of kind `t`. */
  function ParteDeTipo(ord: seq<Solicitud>, now: Timestamp, t: Tipo): seq<Notificacion>
  {
    match t
    case Info => AvisoNuevas(ord, now)
    case Warning => AvisoDemoradas(ord, now)
    case Success => Avisos(TresMasRecientes(ord, EsAprobada), Aprobada)
    case Error => Avisos(TresMasRecientes(ord, EsRechazada), Rechazada)
  }

  lemma ParteHomogenea(ord: seq<Solicitud>, now: Timestamp, t: Tipo)
    ensures TodosDeTipo(ParteDeTipo(ord, now, t), t)
  {
  }

  /** Filtering four runs of one kind each by a kind leaves the run of that kind. */
  lemma FiltrarPartes(a: seq<Notificacion>, b: seq<Notificacion>, c: seq<Notificacion>,
                      d: seq<Notificacion>, t: Tipo)
    requires TodosDeTipo(a, Info) && TodosDeTipo(b, Warning) && TodosDeTipo(c, Success) && TodosDeTipo(d, Error)
    ensures Filtrar(a + b + c + d, DeTipo(t))
      == match t case Info => a case Warning => b case Success => c case Error => d
  {
    var p := DeTipo(t);
    FiltrarCuatro(a, b, c, d, p);
    var fa, fb, fc, fd := Filtrar(a, p), Filtrar(b, p), Filtrar(c, p), Filtrar(d, p);
    assert Filtrar(a + b + c + d, p) == fa + fb + fc + fd;
    SoloTipo(a, Info, t);
    SoloTipo(b, Warning, t);
    SoloTipo(c, Success, t);
    SoloTipo(d, Error, t);
    match t
    case Info => assert fa + fb + fc + fd == a + [] + [] + [] == a;
    case Warning => assert fa + fb + fc + fd == [] + b + [] + [] == b;
    case Success => assert fa + fb + fc + fd == [] + [] + c + [] == c;
    case Error => assert fa + fb + fc + fd == [] + [] + [] + d == d;
  }

  /** Picking the notices of one kind recovers the part of the list that
      produced them. */
  lemma NotificacionesPorTipo(l: seq<Solicitud>, now: Timestamp, t: Tipo)
    ensures Filtrar(Notificaciones(l, now), DeTipo(t)) == ParteDeTipo(Ordenar(l), now, t)
  {
    var ord := Ordenar(l);
    var a, b, c, d := ParteDeTipo(ord, now, Info), ParteDeTipo(ord, now, Warning),
                      ParteDeTipo(ord, now, Success), ParteDeTipo(ord, now, Error);
    assert Notificaciones(l, now) == a + b + c + d;
    ParteHomogenea(ord, now, Info);
    ParteHomogenea(ord, now, Warning);
    ParteHomogenea(ord, now, Success);
    ParteHomogenea(ord, now, Error);
    FiltrarPartes(a, b, c, d, t);
  }

  /** Four runs of one kind each, in rank order, make a list in rank order. */
  lemma CuatroEnOrden(a: seq<Notificacion>, b: seq<Notificacion>, c: seq<Notificacion>, d: seq<Notificacion>)
    requires TodosDeTipo(a, Info) && TodosDeTipo(b, Warning) && TodosDeTipo(c, Success) && TodosDeTipo(d, Error)
    ensures var ns := a + b + c + d;
      forall i, j :: 0 <= i < j < |ns| ==> Rango(ns[i].tipo) <= Rango(ns[j].tipo)
  {
    var ns := a + b + c + d;
    forall k | 0 <= k < |ns|
      ensures Rango(ns[k].tipo) == if k < |a| then 0 else if k < |a| + |b| then 1
                                   else if k < |a| + |b| + |c| then 2 else 3
    {
      if k < |a| { assert ns[k] == a[k]; }
      else if k < |a| + |b| { assert ns[k] == b[k - |a|]; }
      else if k < |a| + |b| + |c| { assert ns[k] == c[k - |a| - |b|]; }
      else { assert ns[k] == d[k - |a| - |b| - |c|]; }
    }
  }

  /** The kinds come in the fixed order info, warning, success, error. */
  lemma NotificacionesOrdenadas(l: seq<Solicitud>, now: Timestamp)
    ensures var ns := Notificaciones(l, now);
      forall i, j :: 0 <= i < j < |ns| ==> Rango(ns[i].tipo) <= Rango(ns[j].tipo)
  {
    var ord := Ordenar(l);
    var a, b, c, d := ParteDeTipo(ord, now, Info), ParteDeTipo(ord, now, Warning),
                      ParteDeTipo(ord, now, Success), ParteDeTipo(ord, now, Error);
    assert Notificaciones(l, now) == a + b + c + d;
    ParteHomogenea(ord, now, Info);
    ParteHomogenea(ord, now, Warning);
    ParteHomogenea(ord, now, Success);
    ParteHomogenea(ord, now, Error);
    CuatroEnOrden(a, b, c, d);
  }

  /** A kind occurs in a list exactly when filtering by it leaves something. */
  lemma HayTipoEn(ns: seq<Notificacion>, t: Tipo)
    ensures (exists i :: 0 <= i < |ns| && ns[i].tipo == t) <==> |Filtrar(ns, DeTipo(t))| > 0
  {
    FiltrarNoVacio(ns, DeTipo(t));
    if exists i :: 0 <= i < |ns| && ns[i].tipo == t {
      var i :| 0 <= i < |ns| && ns[i].tipo == t;
      assert ns[i] in ns && DeTipo(t)(ns[i]);
    }
    if |Filtrar(ns, DeTipo(t))| > 0 {
      var n :| n in ns && DeTipo(t)(n);
      var i :| 0 <= i < |ns| && ns[i] == n;
      assert ns[i].tipo == t;
    }
  }

  /** A kind is present exactly when its part is not empty. */
  lemma HayTipo(l: seq<Solicitud>, now: Timestamp, t: Tipo)
    ensures (exists i :: 0 <= i < |Notificaciones(l, now)| && Notificaciones(l, now)[i].tipo == t)
            <==> |ParteDeTipo(Ordenar(l), now, t)| > 0
  {
    var ns := Notificaciones(l, now);
    NotificacionesPorTipo(l, now, t);
    HayTipoEn(ns, t);
  }

  /** The info notice, when there is one, heads the list. */
  lemma NuevasPrimero(l: seq<Solicitud>, now: Timestamp)
    ensures var a := AvisoNuevas(Ordenar(l), now);
      a != [] ==> |Notificaciones(l, now)| > 0 && Notificaciones(l, now)[0] == a[0]
  {
    var ord := Ordenar(l);
    var a, b, c, d := ParteDeTipo(ord, now, Info), ParteDeTipo(ord, now, Warning),
                      ParteDeTipo(ord, now, Success), ParteDeTipo(ord, now, Error);
    assert Notificaciones(l, now) == a + b + c + d;
    if a != [] {
      PrimeroDeCuatro(a, b, c, d);
    }
  }

  lemma PrimeroDeCuatro(a: seq<Notificacion>, b: seq<Notificacion>, c: seq<Notificacion>, d: seq<Notificacion>)
    requires a != []
    ensures |a + b + c + d| > 0 && (a + b + c + d)[0] == a[0]
  {
  }

  /** The 24-hour notice exists exactly when some request of `l` is less
      than a day old, it comes first, it is the only info notice, and it
      counts all of them. */
  lemma AvisoNuevasSii(l: seq<Solicitud>, now: Timestamp)
    ensures var ns := Notificaciones(l, now);
      (exists i :: 0 <= i < |ns| && ns[i].tipo == Info)
        <==> (exists s :: s in l && now - s.fechaSolicitud < MS_POR_DIA)
    ensures var ns, n := Notificaciones(l, now), |Filtrar(l, Reciente(now))|;
      n > 0 ==> |ns| > 0 && ns[0] == Notificacion(ID_NUEVAS, MensajeNuevas(n), Info, now)
    ensures var ns, n := Notificaciones(l, now), |Filtrar(l, Reciente(now))|;
      n > 0 ==> Filtrar(ns, DeTipo(Info)) == [Notificacion(ID_NUEVAS, MensajeNuevas(n), Info, now)]
  {
    NotificacionesPorTipo(l, now, Info);
    OrdenarConservaCuentas(l, Reciente(now));
    FiltrarNoVacio(l, Reciente(now));
    HayTipo(l, now, Info);
    NuevasPrimero(l, now);
  }

  /** The delay notice exists exactly when some pending request of `l` is
      more than seven days old, it is the only warning, and it counts all of them. */
  lemma AvisoDemoradasSii(l: seq<Solicitud>, now: Timestamp)
    ensures var ns := Notificaciones(l, now);
      (exists i :: 0 <= i < |ns| && ns[i].tipo == Warning)
        <==> (exists s :: s in l && EsPendiente(s) && now - s.fechaSolicitud > 7 * MS_POR_DIA)
    ensures var ns, n := Notificaciones(l, now), |Filtrar(l, Demorada(now))|;
      n > 0 ==> Filtrar(ns, DeTipo(Warning)) == [Notificacion(ID_DEMORADAS, MensajeDemoradas(n), Warning, now)]
  {
    OrdenarConservaCuentas(l, Demorada(now));
    FiltrarNoVacio(l, Demorada(now));
    HayTipo(l, now, Warning);
    NotificacionesPorTipo(l, now, Warning);
  }

  /** The up to three chosen in bucket `p`: newest first, as many as
      there are up to three, each one a request of `l` in the bucket. */
  lemma ElegidasDe(l: seq<Solicitud>, p: Solicitud -> bool)
    ensures var e, n := TresMasRecientes(Ordenar(l), p), |Filtrar(l, p)|;
      NoCreciente(e) && |e| == (if n < 3 then n else 3) && forall y :: y in e ==> y in l && p(y)
  {
    var ord := Ordenar(l);
    var f := Filtrar(ord, p);
    var e := TresMasRecientes(ord, p);
    FiltrarNoCreciente(ord, p);
    OrdenarConservaCuentas(l, p);
    forall i, j | 0 <= i < j < |e| ensures e[j].fechaSolicitud <= e[i].fechaSolicitud {
      assert e[i] == f[i] && e[j] == f[j];
    }
    forall y | y in e ensures y in l {
      OrdenarMismos(l, y);
    }
  }

  /** For every list, the success notices are one per chosen approved
      request, in order: the up to three most recent approved requests of
      `l`, newest first. */
  lemma AvisosAprobadasSiempre(l: seq<Solicitud>, now: Timestamp)
    ensures var e, n := TresMasRecientes(Ordenar(l), EsAprobada), |Filtrar(l, EsAprobada)|;
      Filtrar(Notificaciones(l, now), DeTipo(Success)) == Avisos(e, Aprobada)
      && NoCreciente(e) && |e| == (if n < 3 then n else 3)
      && forall y :: y in e ==> y in l && EsAprobada(y)
  {
    NotificacionesPorTipo(l, now, Success);
    ElegidasDe(l, EsAprobada);
  }

  /** The same for the error notices and the rejected requests. */
  lemma AvisosRechazadasSiempre(l: seq<Solicitud>, now: Timestamp)
    ensures var e, n := TresMasRecientes(Ordenar(l), EsRechazada), |Filtrar(l, EsRechazada)|;
      Filtrar(Notificaciones(l, now), DeTipo(Error)) == Avisos(e, Rechazada)
      && NoCreciente(e) && |e| == (if n < 3 then n else 3)
      && forall y :: y in e ==> y in l && EsRechazada(y)
  {
    NotificacionesPorTipo(l, now, Error);
    ElegidasDe(l, EsRechazada);
  }

  /** At most one info, one warning, three success and three error notices. */
  lemma CuantasPorTipo(l: seq<Solicitud>, now: Timestamp)
    ensures var ns := Notificaciones(l, now);
      |Filtrar(ns, DeTipo(Info))| <= 1 && |Filtrar(ns, DeTipo(Warning))| <= 1
      && |Filtrar(ns, DeTipo(Success))| <= 3 && |Filtrar(ns, DeTipo(Error))| <= 3
  {
    NotificacionesPorTipo(l, now, Info);
    NotificacionesPorTipo(l, now, Warning);
    NotificacionesPorTipo(l, now, Success);
    NotificacionesPorTipo(l, now, Error);
  }

  /** A request of the bucket that is not chosen is no more recent than
      any of the three chosen ones. */
  lemma ElegidaFuera(l: seq<Solicitud>, p: Solicitud -> bool, x: Solicitud)
    requires x in l && p(x) && x !in TresMasRecientes(Ordenar(l), p)
    ensures var e := TresMasRecientes(Ordenar(l), p);
      |e| == 3 && NoCreciente(e) && forall i :: 0 <= i < 3 ==> x.fechaSolicitud <= e[i].fechaSolicitud
  {
    var ord := Ordenar(l);
    var f := Filtrar(ord, p);
    OrdenarMismos(l, x);
    assert x in f;
    FiltrarNoCreciente(ord, p);
    MasRecientes(f, 3, x);
    ElegidasDe(l, p);
  }

  /** The approved notices are about the up to three most recent approved
      requests, newest first: any approved request without a notice is no
      more recent than every one that has one. */
  lemma AvisosAprobadas(l: seq<Solicitud>, now: Timestamp, x: Solicitud)
    requires x in l && EsAprobada(x) && x !in TresMasRecientes(Ordenar(l), EsAprobada)
    ensures var elegidas := TresMasRecientes(Ordenar(l), EsAprobada);
      |elegidas| == 3
      && Filtrar(Notificaciones(l, now), DeTipo(Success)) == Avisos(elegidas, Aprobada)
      && NoCreciente(elegidas)
      && forall i :: 0 <= i < 3 ==> x.fechaSolicitud <= elegidas[i].fechaSolicitud
  {
    NotificacionesPorTipo(l, now, Success);
    ElegidaFuera(l, EsAprobada, x);
  }

  /** The same for the rejected notices. */
  lemma AvisosRechazadas(l: seq<Solicitud>, now: Timestamp, x: Solicitud)
    requires x in l && EsRechazada(x) && x !in TresMasRecientes(Ordenar(l), EsRechazada)
    ensures var elegidas := TresMasRecientes(Ordenar(l), EsRechazada);
      |elegidas| == 3
      && Filtrar(Notificaciones(l, now), DeTipo(Error)) == Avisos(elegidas, Rechazada)
      && NoCreciente(elegidas)
      && forall i :: 0 <= i < 3 ==> x.fechaSolicitud <= elegidas[i].fechaSolicitud
  {
    NotificacionesPorTipo(l, now, Error);
    ElegidaFuera(l, EsRechazada, x);
  }

  /** With at most three approved requests each of them gets a notice. */
  lemma AvisosAprobadasTodas(l: seq<Solicitud>, x: Solicitud)
    requires x in l && EsAprobada(x) && |Filtrar(l, EsAprobada)| <= 3
    ensures x in TresMasRecientes(Ordenar(l), EsAprobada)
  {
    OrdenarConservaCuentas(l, EsAprobada);
    OrdenarMismos(l, x);
    assert x in Filtrar(Ordenar(l), EsAprobada);
  }

  /** With at most three rejected requests each of them gets a notice. */
  lemma AvisosRechazadasTodas(l: seq<Solicitud>, x: Solicitud)
    requires x in l && EsRechazada(x) && |Filtrar(l, EsRechazada)| <= 3
    ensures x in TresMasRecientes(Ordenar(l), EsRechazada)
  {
    OrdenarConservaCuentas(l, EsRechazada);
    OrdenarMismos(l, x);
    assert x in Filtrar(Ordenar(l), EsRechazada);
  }

  // ---------------------------------------------------------------------
  // The "latest requests" panel

  /** The eight most recent requests, newest first. */
  function Ultimas(l: seq<Solicitud>): (r: seq<Solicitud>)
    ensures |r| == if |l| < 8 then |l| else 8
    ensures NoCreciente(r)
    ensures forall y :: y in r ==> y in l
    ensures multiset(r) <= multiset(l)
    ensures r == Ordenar(l)[..|r|]
  {
    var ord := Ordenar(l);
    var r := Primeros(ord, 8);
    PrimerosSubmultiset(ord, 8);
    assert r == ord[..|r|];
    forall y | y in r ensures y in l {
      var i :| 0 <= i < |r| && r[i] == y;
      assert ord[i] == y;
      OrdenarMismos(l, y);
    }
    r
  }

  /** A request the panel leaves out is no more recent than any it shows. */
  lemma UltimasMasRecientes(l: seq<Solicitud>, x: Solicitud)
    requires x in l && x !in Ultimas(l)
    ensures forall i :: 0 <= i < |Ultimas(l)| ==> x.fechaSolicitud <= Ultimas(l)[i].fechaSolicitud
  {
    OrdenarMismos(l, x);
    MasRecientes(Ordenar(l), 8, x);
  }
}
