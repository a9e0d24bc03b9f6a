/** The homologation request (`solicitud`) as the dashboard receives it from
    `GET /api/solicitudes`, the outcome of that request, and the UTC
    calendar day that `new Date(t).toISOString().split('T')[0]` yields. */
module Solicitudes {
  import opened Texto

  datatype Option<T> = None | Some(value: T)

  /** Milliseconds in a day. */
  const MS_POR_DIA: int := 24 * 60 * 60 * 1000

  /** A JavaScript `Date` holds at most 100 000 000 days either side of the epoch. */
  const MAX_FECHA: int := 8_640_000_000_000_000

  /** A valid `Date`, as milliseconds since 1970-01-01T00:00:00Z. */
  type Timestamp = t: int | -MAX_FECHA <= t <= MAX_FECHA

  /** One request. A JSON text field that is absent or null is `None`;
      any string that is present, the empty one included, is `Some`. */
  datatype Solicitud = Solicitud(
    id: nat,
    numeroRadicado: Option<string>,
    primerNombre: Option<string>,
    segundoNombre: Option<string>,
    primerApellido: Option<string>,
    segundoApellido: Option<string>,
    programaDestinoNombre: Option<string>,
    estado: Option<string>,
    fechaSolicitud: Timestamp)

  /** What a fetch of the request list can end in. */
  datatype Respuesta =
    | Ok(data: seq<Solicitud>)                  // 2xx with a JSON array
    | NoOk(status: nat, statusText: string)     // `response.ok` is false
    | Falla(mensaje: string)                    // fetch rejected, or the body is not JSON

  /** The `message` of the error a failed fetch throws or rejects with: a
      rejection's own message, or `Error <status>: <statusText>`, from
      which the status can be read back. */
  function MensajeDeFalla(r: Respuesta): (m: string)
    requires !r.Ok?
    ensures r.Falla? ==> m == r.mensaje
    ensures r.NoOk? ==> var k := |NatATexto(r.status)|;
      |m| == 8 + k + |r.statusText| && m[..6] == "Error " && SoloDigitos(m[6..6 + k])
      && TextoANat(m[6..6 + k]) == r.status && m[6 + k..] == ": " + r.statusText
  {
    match r
    case NoOk(status, statusText) =>
      var d := NatATexto(status);
      var m := "Error " + d + ": " + statusText;
      assert m[6..6 + |d|] == d;
      TextoANatDeNatATexto(status);
      m
    case Falla(m) => m
  }

  // ---------------------------------------------------------------------
  // The proleptic Gregorian calendar, as `Date` uses it.

  predicate Bisiesto(y: int)
  {
    (y % 4 == 0 && y % 100 != 0) || y % 400 == 0
  }

  function DiasDelAnio(y: int): int
  {
    if Bisiesto(y) then 366 else 365
  }

  function DiasDelMes(y: int, m: int): int
    requires 1 <= m <= 12
  {
    if m == 2 then (if Bisiesto(y) then 29 else 28)
    else if m == 4 || m == 6 || m == 9 || m == 11 then 30
    else 31
  }

  /** Days of year `y` before the first of month `m`. */
  function DiasAntesDelMes(y: int, m: int): int
    requires 1 <= m <= 12
  {
    [0, 31, 59, 90, 120, 151, 181, 212, 243, 273, 304, 334][m - 1]
    + (if m > 2 && Bisiesto(y) then 1 else 0)
  }

  /** Days from January 1st of year `a` to January 1st of year `b`
      (negative when `b` comes first). */
  function DiasEntreAnios(a: int, b: int): int
    decreases if b >= a then b - a else a - b
  {
    if b == a then 0
    else if b > a then DiasEntreAnios(a, b - 1) + DiasDelAnio(b - 1)
    else DiasEntreAnios(a, b + 1) - DiasDelAnio(b)
  }

  /** Moving the starting year one back adds that year's days. */
  lemma {:induction false} DiasEntreAniosDesdeAnterior(a: int, b: int)
    ensures DiasEntreAnios(a - 1, b) == DiasDelAnio(a - 1) + DiasEntreAnios(a, b)
    decreases if b >= a then b - a else a - b
  {
    if b > a {
      DiasEntreAniosDesdeAnterior(a, b - 1);
    } else if b < a - 1 {
      DiasEntreAniosDesdeAnterior(a, b + 1);
    }
  }

  /** The year holding the day `z` days after January 1st of year `y`, and
      the offset of that day within its year. */
  function AnioYDia(z: int, y: int): (r: (int, int))
    ensures 0 <= r.1 < DiasDelAnio(r.0)
    ensures DiasEntreAnios(y, r.0) + r.1 == z
    decreases if z < 0 then -z else 0, if z < 0 then 0 else z
  {
    if z < 0 then
      var r := AnioYDia(z + DiasDelAnio(y - 1), y - 1);
      DiasEntreAniosDesdeAnterior(y, r.0);
      r
    else if z >= DiasDelAnio(y) then
      var r := AnioYDia(z - DiasDelAnio(y), y + 1);
      DiasEntreAniosDesdeAnterior(y + 1, r.0);
      r
    else
      (y, z)
  }

  /** The month in which day `d` (counted from 0) of year `y` falls. */
  function MesDelDia(y: int, d: int): (m: int)
    requires 0 <= d < DiasDelAnio(y)
    ensures 1 <= m <= 12
    ensures DiasAntesDelMes(y, m) <= d < DiasAntesDelMes(y, m) + DiasDelMes(y, m)
  {
    if d < DiasAntesDelMes(y, 2) then 1
    else if d < DiasAntesDelMes(y, 3) then 2
    else if d < DiasAntesDelMes(y, 4) then 3
    else if d < DiasAntesDelMes(y, 5) then 4
    else if d < DiasAntesDelMes(y, 6) then 5
    else if d < DiasAntesDelMes(y, 7) then 6
    else if d < DiasAntesDelMes(y, 8) then 7
    else if d < DiasAntesDelMes(y, 9) then 8
    else if d < DiasAntesDelMes(y, 10) then 9
    else if d < DiasAntesDelMes(y, 11) then 10
    else if d < DiasAntesDelMes(y, 12) then 11
    else 12
  }

  /** A calendar date: year, month 1-12 and day of month. */
  datatype Fecha = Fecha(anio: int, mes: int, dia: int)

  predicate FechaValida(f: Fecha)
  {
    1 <= f.mes <= 12 && 1 <= f.dia <= DiasDelMes(f.anio, f.mes)
  }

  /** The number of days from 1970-01-01 to the valid date `f`. */
  function DiasDesdeEpoca(f: Fecha): int
    requires FechaValida(f)
  {
    DiasEntreAnios(1970, f.anio) + DiasAntesDelMes(f.anio, f.mes) + f.dia - 1
  }

  /** The calendar date `z` days after 1970-01-01; `DiasDesdeEpoca` undoes it. */
  function FechaDeDia(z: int): (f: Fecha)
    ensures FechaValida(f)
    ensures DiasDesdeEpoca(f) == z
  {
    var r := AnioYDia(z, 1970);
    var m := MesDelDia(r.0, r.1);
    Fecha(r.0, m, r.1 - DiasAntesDelMes(r.0, m) + 1)
  }

  /** Different days have different dates. */
  lemma FechaDeDiaInyectiva(z1: int, z2: int)
    requires FechaDeDia(z1) == FechaDeDia(z2)
    ensures z1 == z2
  {
    assert DiasDesdeEpoca(FechaDeDia(z1)) == z1;
  }

  /** The UTC day a timestamp falls in; Dafny's `/` rounds down here, as
      the calendar does for instants before the epoch. */
  function DiaUtc(t: Timestamp): int
  {
    t / MS_POR_DIA
  }

  /** The year as `toISOString` writes it: four digits for 0-9999,
      otherwise a sign and six digits. */
  function TextoAnio(y: int): string
  {
    if 0 <= y <= 9999 then RellenarCeros(NatATexto(y), 4)
    else if y < 0 then "-" + RellenarCeros(NatATexto(-y), 6)
    else "+" + RellenarCeros(NatATexto(y), 6)
  }

  /** The `YYYY-MM-DD` form `toISOString` gives a calendar date. */
  function TextoFecha(f: Fecha): string
    requires FechaValida(f)
  {
    TextoAnio(f.anio) + "-" + RellenarCeros(NatATexto(f.mes), 2) + "-"
      + RellenarCeros(NatATexto(f.dia), 2)
  }

  /** `new Date(t).toISOString().split('T')[0]`: the date part of the UTC
      day of `t`. */
  function DiaIso(t: Timestamp): (r: string)
    ensures var f := FechaDeDia(DiaUtc(t));
      FechaValida(f) && r == TextoFecha(f)
      && DiasDesdeEpoca(f) * MS_POR_DIA <= t < (DiasDesdeEpoca(f) + 1) * MS_POR_DIA
  {
    DiaUtcContiene(t);
    TextoFecha(FechaDeDia(DiaUtc(t)))
  }

  /** The UTC day of `t` starts at or before `t` and ends after it. */
  lemma DiaUtcContiene(t: Timestamp)
    ensures DiaUtc(t) * MS_POR_DIA <= t < (DiaUtc(t) + 1) * MS_POR_DIA
  {
    var c := MS_POR_DIA;
    assert t == (t / c) * c + t % c && 0 <= t % c < c;
  }

  /** For a four-digit year the date is written exactly `YYYY-MM-DD`. */
  lemma TextoFechaForma(f: Fecha)
    requires FechaValida(f) && 0 <= f.anio <= 9999
    ensures var s := TextoFecha(f);
      |s| == 10 && s[4] == '-' && s[7] == '-' && SoloDigitos(s[..4] + s[5..7] + s[8..])
  {
    var y := RellenarCeros(NatATexto(f.anio), 4);
    var m := RellenarCeros(NatATexto(f.mes), 2);
    var d := RellenarCeros(NatATexto(f.dia), 2);
    assert TextoFecha(f) == y + "-" + m + "-" + d;
    CampoFijo(f.anio, 4, 10000);
    CampoFijo(f.mes, 2, 100);
    CampoFijo(f.dia, 2, 100);
    FormaIso(y, m, d);
  }

  /** Joining four, two and two digits with dashes gives `YYYY-MM-DD`. */
  lemma FormaIso(y: string, m: string, d: string)
    requires |y| == 4 && |m| == 2 && |d| == 2
    requires SoloDigitos(y) && SoloDigitos(m) && SoloDigitos(d)
    ensures var s := y + "-" + m + "-" + d;
      |s| == 10 && s[4] == '-' && s[7] == '-' && SoloDigitos(s[..4] + s[5..7] + s[8..])
  {
    var s := y + "-" + m + "-" + d;
    assert s[..4] + s[5..7] + s[8..] == y + m + d;
  }

  /** A number below `10^w` is written as exactly `w` digits once padded. */
  lemma CampoFijo(n: nat, w: nat, cota: nat)
    requires 1 <= w && cota == Potencia10(w) && n < cota
    ensures |RellenarCeros(NatATexto(n), w)| == w
    ensures SoloDigitos(RellenarCeros(NatATexto(n), w))
  {
    DigitosAcotados(n, w);
    RellenoSoloDigitos(NatATexto(n), w);
  }

  /** A number below `10^w` has at most `w` digits. */
  lemma {:induction false} DigitosAcotados(n: nat, w: nat)
    requires 1 <= w && n < Potencia10(w)
    ensures |NatATexto(n)| <= w
  {
    if n >= 10 {
      assert w >= 2;
      assert n < 10 * Potencia10(w - 1);
      DigitosAcotados(n / 10, w - 1);
    }
  }

  function Potencia10(w: nat): nat
  {
    if w == 0 then 1 else 10 * Potencia10(w - 1)
  }

  lemma {:induction false} RellenoSoloDigitos(s: string, w: nat)
    requires SoloDigitos(s)
    ensures SoloDigitos(RellenarCeros(s, w))
    decreases w - |s|
  {
    if |s| < w { RellenoSoloDigitos("0" + s, w); }
  }

  /** The epoch itself is 1970-01-01. */
  lemma DiaIsoEpoca()
    ensures DiaIso(0) == "1970-01-01"
  {
    FechaDeEpoca();
    TextoDeEpoca();
  }

  lemma FechaDeEpoca()
    ensures DiaUtc(0) == 0 && FechaDeDia(0) == Fecha(1970, 1, 1)
  {
    assert AnioYDia(0, 1970) == (1970, 0);
  }

  lemma TextoDeEpoca()
    ensures TextoFecha(Fecha(1970, 1, 1)) == "1970-01-01"
  {
    var f := Fecha(1970, 1, 1);
    assert FechaValida(f);
    DigitosDe1970();
    TextoAnioLiteral(1970, "1970");
    TextoDosDigitos(1, "01");
    assert TextoFecha(f) == "1970" + "-" + "01" + "-" + "01";
    GuionesEpoca();
  }

  lemma GuionesEpoca()
    ensures "1970" + "-" + "01" + "-" + "01" == "1970-01-01"
  {
  }

  lemma DigitosDe1970()
    ensures NatATexto(1970) == "1970"
  {
    assert NatATexto(19) == "19";
    assert NatATexto(197) == NatATexto(19) + "7";
    assert NatATexto(1970) == NatATexto(197) + "0";
  }

  /** The last millisecond before the epoch belongs to the previous UTC
      day, 1969-12-31, not to day 0. */
  lemma FechaAntesDeEpoca()
    ensures DiaUtc(-1) == -1 && FechaDeDia(DiaUtc(-1)) == Fecha(1969, 12, 31)
  {
    assert DiasDelAnio(1969) == 365;
    assert AnioYDia(-1, 1970) == AnioYDia(364, 1969);
    assert AnioYDia(364, 1969) == (1969, 364);
    assert MesDelDia(1969, 364) == 12;
  }

  lemma TextoAnioLiteral(y: nat, s: string)
    requires y <= 9999 && NatATexto(y) == s && |s| == 4
    ensures TextoAnio(y) == s
  {
  }

  lemma TextoDosDigitos(n: nat, s: string)
    requires n < 100 && |s| == 2 && (if n < 10 then "0" + NatATexto(n) else NatATexto(n)) == s
    ensures RellenarCeros(NatATexto(n), 2) == s
  {
  }
}
