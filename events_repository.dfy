/** The event deduplicator: records an event id the first time it is seen
    and reports whether this call was that first time. */
module EventsRepository {
  import opened Json

  /** A stored event: its id, when it was first recorded, and its payload. */
  datatype EventRecord = EventRecord(eventId: string, createdAt: int, payload: JsonObject)

  /** The events table, keyed by `eventId`. */
  type EventTable = map<string, EventRecord>

  /** What one call does to the table, and what it returns: insert if absent. */
  function SaveIfAbsent(table: EventTable, eventId: string, payload: JsonObject, now: int): (EventTable, bool)
  {
    if eventId in table then (table, false)
    else (table[eventId := EventRecord(eventId, now, payload)], true)
  }

  /** A new id is inserted with the call's time and payload; the call says so. */
  lemma InsertsWhenAbsent(table: EventTable, eventId: string, payload: JsonObject, now: int)
    requires eventId !in table
    ensures var (table', inserted) := SaveIfAbsent(table, eventId, payload, now);
      && inserted
      && table'.Keys == table.Keys + {eventId}
      && table'[eventId] == EventRecord(eventId, now, payload)
  {
  }

  /** A known id leaves the table as it was, existing record included. */
  lemma KeepsExisting(table: EventTable, eventId: string, payload: JsonObject, now: int)
    requires eventId in table
    ensures SaveIfAbsent(table, eventId, payload, now) == (table, false)
  {
  }

  /** The call reports `true` exactly when the id was new, and in either case
      the id is recorded afterwards, its record never overwritten. */
  lemma ReportsFirstSighting(table: EventTable, eventId: string, payload: JsonObject, now: int)
    ensures var (table', inserted) := SaveIfAbsent(table, eventId, payload, now);
      && (inserted <==> eventId !in table)
      && eventId in table'
      && (eventId in table ==> table'[eventId] == table[eventId])
  {
  }

  /** Records under other ids are unchanged. */
  lemma OtherRecordsUnchanged(table: EventTable, eventId: string, payload: JsonObject, now: int, other: string)
    requires other != eventId
    ensures var (table', _) := SaveIfAbsent(table, eventId, payload, now);
      (other in table' <==> other in table) && (other in table ==> table'[other] == table[other])
  {
  }

  /** Idempotence: the same id twice gives `true`, then `false`, and the
      second call changes nothing, whatever its payload and time. */
  lemma SecondCallIsDuplicate(table: EventTable, eventId: string, p1: JsonObject, t1: int, p2: JsonObject, t2: int)
    requires eventId !in table
    ensures var (table1, first) := SaveIfAbsent(table, eventId, p1, t1);
      var (table2, second) := SaveIfAbsent(table1, eventId, p2, t2);
      first && !second && table2 == table1 && table2[eventId] == EventRecord(eventId, t1, p1)
  {
  }

  class EventsRepository {
    var table: EventTable

    constructor (table: EventTable)
      ensures this.table == table
    {
      this.table := table;
    }

    /** `saveEventIfNotExists`, as one atomic step; `now` is the clock reading. */
    method SaveEventIfNotExists(eventId: string, payload: JsonObject, now: int) returns (inserted: bool)
      modifies this
      ensures (table, inserted) == SaveIfAbsent(old(table), eventId, payload, now)
    {
      if eventId in table {
        return false;
      }
      table := table[eventId := EventRecord(eventId, now, payload)];
      return true;
    }
  }
}
