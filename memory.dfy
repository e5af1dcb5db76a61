/**
 * Session memory: the per-session property record kept in a key-value store
 * (app/memory_manager.py).  The store is a map from session identifier to
 * record; `available` is whether the store answered at start-up.
 */
module Memory {

  /** A field value: a string, a list of strings (amenities as the rule layer yields them), or JSON null. */
  datatype Value = Str(s: string) | Items(xs: seq<string>) | Null

  /** Python truthiness: the empty string, the empty list and `None` are false. */
  predicate Truthy(v: Value) {
    match v
    case Str(s) => s != ""
    case Items(xs) => xs != []
    case Null => false
  }

  /** A property record: field name to value. */
  type Record = map<string, Value>

  /** `{**current, **update}`, also `current.update(update)`: the keys of `update` win. */
  function Overlay(current: Record, update: Record): (r: Record)
    ensures r.Keys == current.Keys + update.Keys
    ensures forall k :: k in update ==> r[k] == update[k]
    ensures forall k :: k in current && k !in update ==> r[k] == current[k]
  {
    current + update
  }

  /** Merging the same update twice gives what merging it once gives. */
  lemma OverlayIdempotent(current: Record, update: Record)
    ensures Overlay(Overlay(current, update), update) == Overlay(current, update)
  {
  }

  /** Overlaying a record with an update that already contains it changes nothing further. */
  lemma OverlayAbsorbs(current: Record, update: Record)
    ensures Overlay(current, Overlay(current, update)) == Overlay(current, update)
  {
  }

  /** Merging never removes a key, nor changes a key the update does not mention. */
  lemma OverlayKeeps(current: Record, update: Record, k: string)
    requires k in current
    ensures k in Overlay(current, update)
    ensures k !in update ==> Overlay(current, update)[k] == current[k]
  {
  }

  class PropertyMemory {
    /** Whether the backing store was reachable; when it is not, memory is stateless. */
    const available: bool
    /** The backing store's contents: session identifier to saved record. */
    var store: map<string, Record>

    constructor (available: bool, initial: map<string, Record>)
      ensures this.available == available && store == initial
    {
      this.available := available;
      store := initial;
    }

    /**
     * `get`: the saved record, or the empty record when the store is
     * unavailable or holds none. These three cases are the whole
     * specification of `get`.
     */
    function Get(sessionId: string): (r: Record)
      reads this
      ensures !available ==> r == map[]
      ensures available && sessionId !in store ==> r == map[]
      ensures available && sessionId in store ==> r == store[sessionId]
    {
      if available && sessionId in store then store[sessionId] else map[]
    }

    /** `update`: merge `newData` over the saved record, save it and return it. */
    method Update(sessionId: string, newData: Record) returns (r: Record)
      modifies this
      ensures !available ==> r == newData && store == old(store)
      ensures available ==> r == Overlay(old(Get(sessionId)), newData)
      ensures available ==> store == old(store)[sessionId := r]
      ensures available ==> Get(sessionId) == r
      ensures forall other :: other != sessionId ==> Get(other) == old(Get(other))
    {
      if !available {
        return newData;
      }
      var current := Get(sessionId);
      current := current + newData;
      store := store[sessionId := current];
      r := current;
    }

    /** `clear`: forget the session's record; nothing happens when the store is unavailable. */
    method Clear(sessionId: string)
      modifies this
      ensures !available ==> store == old(store)
      ensures available ==> store == old(store) - {sessionId}
      ensures Get(sessionId) == map[]
      ensures forall other :: other != sessionId ==> Get(other) == old(Get(other))
    {
      if available {
        store := store - {sessionId};
      }
    }
  }
}
