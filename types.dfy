/** Record shapes of the campus client (src/types/index.ts), plus the coupon
    record of the rewards ledger and the decoded values of the browser's
    key-value store. Free-text and identifier fields are strings; the numeric
    fields the model computes with are integers, the coordinates and the
    average rating stay `real` because nothing here computes with them. */
module Types {

  datatype Option<T> = None | Some(value: T)

  /** The enumerated `tipo` of a place. */
  datatype TipoLugar = Cafeteria | Biblioteca | Sala | Bano

  /** The text the app shows for each `tipo`. */
  function TipoName(t: TipoLugar): string
  {
    match t
    case Cafeteria => "cafetería"
    case Biblioteca => "biblioteca"
    case Sala => "sala"
    case Bano => "baño"
  }

  datatype Resena = Resena(id: string, usuario: string, texto: string, fecha: string, rating: int)

  /** The enumerated `tipo` of an alert. */
  datatype TipoAlerta = Lleno | Mantenimiento | Cerrado

  function TipoAlertaName(t: TipoAlerta): string
  {
    match t
    case Lleno => "lleno"
    case Mantenimiento => "mantenimiento"
    case Cerrado => "cerrado"
  }

  datatype Alerta = Alerta(id: string, texto: string, tipo: TipoAlerta, fecha: string, expira: string)

  datatype Lugar = Lugar(
    id: string,
    nombre: string,
    tipo: TipoLugar,
    etiquetas: seq<string>,
    lat: real,
    lng: real,
    rating: real,
    resenas: seq<Resena>,
    alertas: Option<seq<Alerta>>,
    descripcion: Option<string>,
    horario: Option<string>)

  datatype Evento = Evento(
    id: string,
    titulo: string,
    facultad: string,
    lugar: string,
    fecha: string,
    hora: string,
    descripcion: string,
    inscritos: int,
    imagen: Option<string>)

  datatype Usuario = Usuario(id: string, email: string, nombre: string, isAdmin: bool)

  /** One row of the leaderboard snapshot. */
  datatype UCPuntos = UCPuntos(userId: string, nombre: string, puntos: int)

  datatype Premio = Premio(id: string, nombre: string, descripcion: string, costo: int, imagen: Option<string>)

  /** A redeemed coupon (declared in src/contexts/PointsContext.tsx). */
  datatype Cupon = Cupon(id: string, premio: Premio, fechaCanje: string)

  /** A value of the browser's key-value store, already decoded: the text
      encodings (`toString`, `JSON.stringify`) and their parsing are not modelled. */
  datatype Stored = StoredPoints(n: int) | StoredCupones(cs: seq<Cupon>) | StoredUser(u: Usuario)
}
