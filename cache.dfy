/** CacheService: the "Cache" table, holding one serialised character per SWAPI id and treating a
    row older than thirty minutes as absent. */
module Cache {
  import opened Wrappers
  import opened Json

  /** The expiry window, 30 · 60 · 1000 milliseconds. */
  const CacheTime: int := 30 * 60 * 1000
  const GetPrefix := "Error al obtener personaje del caché: "
  const PutPrefix := "Error al guardar en caché: "

  /** One row of the table: `data` (the record, its JSON text taken as the record itself),
      `timestamp` and `expiresAt` in milliseconds. */
  datatype Row = Row(data: Record, timestamp: int, expiresAt: int)

  /** What `getCachedCharacter(id)` answers at time `now` over the rows `rows`. */
  function Lookup(rows: map<string, Row>, id: string, now: int): Option<Record>
  {
    if id !in rows then None
    else if now - rows[id].timestamp > CacheTime then None
    else Some(rows[id].data)
  }

  /** The rows after `cacheCharacter(id, c)` at time `now`. */
  function Stored(rows: map<string, Row>, id: string, c: Record, now: int): map<string, Row>
  {
    rows[id := Row(c, now, now + CacheTime)]
  }

  /** The window is 1,800,000 ms; a row is returned up to and including that age and absent one
      millisecond later. */
  lemma ExpiryBoundary(rows: map<string, Row>, id: string, now: int)
    requires id in rows && now - rows[id].timestamp == CacheTime
    ensures CacheTime == 1800000
    ensures Lookup(rows, id, now) == Some(rows[id].data)
    ensures Lookup(rows, id, now + 1) == None
  {
  }

  /** Once a row has expired it stays expired: reading later never revives it. */
  lemma ExpiryIsFinal(rows: map<string, Row>, id: string, now: int, later: int)
    requires now <= later && Lookup(rows, id, now) == None
    ensures Lookup(rows, id, later) == None
  {
  }

  /** A put followed, within the window, by a get of the same id answers the stored record; past
      the window it answers nothing. */
  lemma PutThenGet(rows: map<string, Row>, id: string, c: Record, now: int, later: int)
    ensures Lookup(Stored(rows, id, c, now), id, later) ==
      if later - now <= CacheTime then Some(c) else None
  {
  }

  /** A put leaves every other id's row, and what a get of it answers, as it was. */
  lemma PutKeepsOthers(rows: map<string, Row>, id: string, c: Record, now: int, other: string, t: int)
    requires other != id
    ensures other in Stored(rows, id, c, now) <==> other in rows
    ensures other in rows ==> Stored(rows, id, c, now)[other] == rows[other]
    ensures Lookup(Stored(rows, id, c, now), other, t) == Lookup(rows, other, t)
  {
  }

  /** A put replaces any earlier row for the id: the last write decides. */
  lemma PutOverwrites(rows: map<string, Row>, id: string, c1: Record, t1: int, c2: Record, t2: int)
    ensures Stored(Stored(rows, id, c1, t1), id, c2, t2) == Stored(rows, id, c2, t2)
  {
  }

  class CacheService {
    var rows: map<string, Row>

    constructor ()
      ensures rows == map[]
    {
      rows := map[];
    }

    /** getCachedCharacter(id) at time `now`; `fault` is the message a failing store read
        throws. Reading never changes a row, expired or not. */
    method GetCachedCharacter(id: string, now: int, fault: Option<string>)
      returns (r: Result<Option<Record>>)
      ensures fault.Some? ==> r == Err(Plain(GetPrefix + fault.value))
      ensures fault.None? ==> r == Ok(Lookup(rows, id, now))
    {
      if fault.Some? {
        r := Err(Wrap(GetPrefix, Plain(fault.value)));
        return;
      }
      if id !in rows {
        r := Ok(None);
        return;
      }
      var row := rows[id];
      if now - row.timestamp > CacheTime {
        r := Ok(None);
        return;
      }
      r := Ok(Some(row.data));
    }

    /** cacheCharacter(id, c) at time `now`; `fault` is the message a failing store write
        throws, in which case no row changes. */
    method CacheCharacter(id: string, c: Record, now: int, fault: Option<string>)
      returns (r: Result<()>)
      modifies this
      ensures fault.Some? ==> r == Err(Plain(PutPrefix + fault.value)) && rows == old(rows)
      ensures fault.None? ==> r == Ok(()) && rows == Stored(old(rows), id, c, now)
    {
      if fault.Some? {
        r := Err(Wrap(PutPrefix, Plain(fault.value)));
        return;
      }
      rows := rows[id := Row(c, now, now + CacheTime)];
      r := Ok(());
    }
  }
}
