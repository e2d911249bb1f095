/** The records the analysis handler of backend/server.js works on. */
module Records {

  datatype Option<T> = None | Some(value: T)

  /** Risk label of an anomaly or of a leaderboard entry. */
  datatype Risk = Alto | Medio

  /** The three rule kinds, declared in rule-evaluation order:
      'Consumo Nocturno Elevado', 'Alto Consumo con Baja Necesidad',
      'Incremento Súbito'. */
  datatype Kind = ConsumoNocturnoElevado | AltoConsumoBajaNecesidad | IncrementoSubito

  /** Position of a rule in the evaluation order. */
  function Rank(k: Kind): nat {
    match k
    case ConsumoNocturnoElevado => 1
    case AltoConsumoBajaNecesidad => 2
    case IncrementoSubito => 3
  }

  /** One aggregated (owner, day, hour) bucket as the database returns it:
      `fecha` is the "%Y-%m-%d" day, `hora` the hour of day, and the three
      sums are kWh. */
  datatype Bucket = Bucket(
    propietarioId: string,
    fecha: string,
    hora: int,
    consumo: real,
    generado: real,
    necesidad: real,
    count: nat)

  /** A document of the `clientes` collection (the fields the handler reads). */
  datatype Cliente = Cliente(
    externalId: string,
    nombre: string,
    calle: string,
    numero: string,
    barrio: string,
    ciudad: string,
    provincia: string)

  /** A value of the client directory `clientesMap`. */
  datatype DirEntry = DirEntry(
    nombre: string,
    direccion: string,
    barrio: string,
    ciudad: string,
    provincia: string)

  /** A bucket with the address fields resolved from the directory. */
  datatype Enriched = Enriched(
    bucket: Bucket,
    direccion: string,
    barrio: string,
    ciudad: string,
    provincia: string)

  /** One anomaly record; `fecha` and `hora` stand for the record's `date`.
      The human-readable `descripcion` is not modelled. */
  datatype Anomaly = Anomaly(
    propietarioId: string,
    direccion: string,
    barrio: string,
    fecha: string,
    hora: int,
    tipo: Kind,
    valor: real,
    riesgo: Risk,
    puntuacion: int)
}
