/** The `Room` entity and the row the `rooms` table keeps for it. */
module Rooms {
  import opened Wrappers
  import opened Units
  import opened Errors
  import opened RoomTypes

  /** A row of the `rooms` table; every column is NOT NULL. */
  datatype RoomRow = RoomRow(
    id: int,
    numero: string,
    tipo: TipoHabitacion,
    precioPorNoche: Cents,
    capacidadMaxima: int,
    disponible: bool)

  /**
   * A room as the services handle it: every reference field may be null,
   * the `disponible` flag starts switched on and is only ever set from a
   * primitive `boolean`, so it is never null.
   */
  class Room {
    var id: Option<int>
    var numero: Option<string>
    var tipo: Option<TipoHabitacion>
    var precioPorNoche: Option<Cents>
    var capacidadMaxima: Option<int>
    var disponible: bool

    constructor ()
      ensures disponible
      ensures id == None && numero == None && tipo == None
      ensures precioPorNoche == None && capacidadMaxima == None
    {
      id, numero, tipo, precioPorNoche, capacidadMaxima := None, None, None, None, None;
      disponible := true;
    }

    /** A new room of type `tipo` admits the type's maximum number of guests. */
    constructor Create(numero: string, tipo: TipoHabitacion, precioPorNoche: Cents)
      ensures this.numero == Some(numero) && this.tipo == Some(tipo)
      ensures this.precioPorNoche == Some(precioPorNoche)
      ensures capacidadMaxima == Some(tipo.CapacidadMaxima())
      ensures disponible && id == None
    {
      id := None;
      this.numero := Some(numero);
      this.tipo := Some(tipo);
      this.precioPorNoche := Some(precioPorNoche);
      capacidadMaxima := Some(tipo.CapacidadMaxima());
      disponible := true;
    }

    /** A room read back from its row (`mapResultSetToRoom`). */
    constructor FromRow(row: RoomRow)
      ensures id == Some(row.id) && numero == Some(row.numero) && tipo == Some(row.tipo)
      ensures precioPorNoche == Some(row.precioPorNoche)
      ensures capacidadMaxima == Some(row.capacidadMaxima) && disponible == row.disponible
    {
      id := Some(row.id);
      numero := Some(row.numero);
      tipo := Some(row.tipo);
      precioPorNoche := Some(row.precioPorNoche);
      capacidadMaxima := Some(row.capacidadMaxima);
      disponible := row.disponible;
    }

    /** The columns the room's INSERT and UPDATE statements write, under id `key`. */
    function Row(key: int): (row: RoomRow)
      reads this
      requires numero.Some? && tipo.Some? && precioPorNoche.Some? && capacidadMaxima.Some?
      ensures row.id == key && Some(row.numero) == numero && Some(row.tipo) == tipo
      ensures Some(row.precioPorNoche) == precioPorNoche && Some(row.capacidadMaxima) == capacidadMaxima
      ensures row.disponible == disponible
    {
      RoomRow(key, numero.value, tipo.value, precioPorNoche.value, capacidadMaxima.value, disponible)
    }

    /**
     * The price of `noches` nights; a count that is not positive is refused.
     * The price must be set when the count is positive (the source would
     * dereference a null price).
     */
    function CalcularPrecioTotal(noches: int): (r: Result<Cents, Error>)
      reads this
      requires noches > 0 ==> precioPorNoche.Some?
      ensures r.Failure? <==> noches <= 0
      ensures r.Failure? ==> r.error == NightsNotPositive
      ensures r.Success? ==> r.value == precioPorNoche.value * noches
    {
      if noches <= 0 then Failure(NightsNotPositive)
      else Success(precioPorNoche.value * noches)
    }

    /** Whether `numeroHuespedes` guests fit; the capacity must be set for a positive count. */
    predicate PuedeAlojar(numeroHuespedes: int)
      reads this
      requires numeroHuespedes > 0 ==> capacidadMaxima.Some?
      ensures PuedeAlojar(numeroHuespedes) <==>
                1 <= numeroHuespedes && numeroHuespedes <= capacidadMaxima.value
    {
      numeroHuespedes > 0 && numeroHuespedes <= capacidadMaxima.value
    }

    /** The administrative on/off switch, independent of any booking. */
    predicate IsAvailable()
      reads this
    {
      disponible
    }

    method SetDisponible(disponible: bool)
      modifies this`disponible
      ensures IsAvailable() == disponible
    {
      this.disponible := disponible;
    }

    method SetId(id: Option<int>)
      modifies this`id
      ensures this.id == id
    {
      this.id := id;
    }

    method SetNumero(numero: Option<string>)
      modifies this`numero
      ensures this.numero == numero
    {
      this.numero := numero;
    }

    /** Setting a type also resets the capacity to the type's maximum; a null type leaves it. */
    method SetTipo(tipo: Option<TipoHabitacion>)
      modifies this`tipo, this`capacidadMaxima
      ensures this.tipo == tipo
      ensures tipo.Some? ==> capacidadMaxima == Some(tipo.value.CapacidadMaxima())
      ensures tipo.None? ==> capacidadMaxima == old(capacidadMaxima)
    {
      this.tipo := tipo;
      if tipo.Some? {
        capacidadMaxima := Some(tipo.value.CapacidadMaxima());
      }
    }

    method SetPrecioPorNoche(precioPorNoche: Option<Cents>)
      modifies this`precioPorNoche
      ensures this.precioPorNoche == precioPorNoche
    {
      this.precioPorNoche := precioPorNoche;
    }

    /** Overrides the capacity without touching the type. */
    method SetCapacidadMaxima(capacidadMaxima: Option<int>)
      modifies this`capacidadMaxima
      ensures this.capacidadMaxima == capacidadMaxima
    {
      this.capacidadMaxima := capacidadMaxima;
    }
  }

  /** A room whose capacity is its type's admits every guest count the type allows. */
  lemma TypeCapacityAdmitsTypeRange(room: Room, n: int)
    requires room.tipo.Some? && room.capacidadMaxima == Some(room.tipo.value.CapacidadMaxima())
    requires room.tipo.value.CapacidadMinima() <= n <= room.tipo.value.CapacidadMaxima()
    ensures room.PuedeAlojar(n)
  {
    CapacityRange(room.tipo.value);
  }

  /** Pricing two consecutive blocks of nights separately costs the same as pricing them together. */
  lemma PriceAdditive(room: Room, a: int, b: int)
    requires room.precioPorNoche.Some? && a > 0 && b > 0
    ensures room.CalcularPrecioTotal(a + b).value
         == room.CalcularPrecioTotal(a).value + room.CalcularPrecioTotal(b).value
  {
    var p := room.precioPorNoche.value;
    assert p * (a + b) == p * a + p * b;
  }
}
