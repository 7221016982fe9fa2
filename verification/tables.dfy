/**
 A single database table: rows keyed by an integer primary key, together with
 the sequence that hands out the next key. Every entity table of the store is one
 of these, so the bookkeeping of keys is written once here.
 */
module Tables {
  import opened Wrappers

  /** `rows` maps primary key to row; `nextId` is the value the key sequence hands out next. */
  datatype Table<T> = Table(rows: map<int, T>, nextId: int)

  /** Keys are positive and every key already handed out lies below the sequence's next value. */
  ghost predicate Valid<T>(t: Table<T>) {
    && 1 <= t.nextId
    && forall id :: id in t.rows ==> 1 <= id < t.nextId
  }

  /** A freshly created table: no rows, sequence starting at 1. */
  function Empty<T>(): (t: Table<T>)
    ensures Valid(t)
    ensures |t.rows| == 0
  {
    Table(map[], 1)
  }

  /** Lookup by primary key; a missing key is reported as None, never as an error. */
  function Find<T>(t: Table<T>, id: int): (r: Option<T>)
    ensures r.Some? <==> id in t.rows
    ensures r.Some? ==> r.value == t.rows[id]
  {
    if id in t.rows then Some(t.rows[id]) else None
  }

  /** Stores `row` under the key the sequence hands out, which no existing row holds. */
  function Append<T>(t: Table<T>, row: T): (t': Table<T>)
    requires Valid(t)
    ensures t.nextId !in t.rows
    ensures t'.rows == t.rows[t.nextId := row]
    ensures t'.nextId > t.nextId
    ensures Valid(t')
  {
    Table(t.rows[t.nextId := row], t.nextId + 1)
  }

  /** Overwrites an existing row in place; the key set and the sequence stay as they were. */
  function Replace<T>(t: Table<T>, id: int, row: T): (t': Table<T>)
    requires id in t.rows
    ensures t'.rows.Keys == t.rows.Keys
    ensures t'.rows[id] == row
    ensures forall k :: k in t.rows && k != id ==> t'.rows[k] == t.rows[k]
    ensures t'.nextId == t.nextId
    ensures Valid(t) ==> Valid(t')
  {
    Table(t.rows[id := row], t.nextId)
  }

  /** Removes the row with key `id` if there is one; the sequence is not rewound. */
  function Remove<T>(t: Table<T>, id: int): (t': Table<T>)
    ensures id !in t'.rows
    ensures t'.rows.Keys == t.rows.Keys - {id}
    ensures forall k :: k in t'.rows ==> t'.rows[k] == t.rows[k]
    ensures t'.nextId == t.nextId
    ensures Valid(t) ==> Valid(t')
  {
    Table(t.rows - {id}, t.nextId)
  }

  /**
   `t'` is a later state of `t`: the sequence has not gone back, and every row
   present in `t'` but not in `t` carries a key the sequence handed out in between,
   so it is none of the keys `t` ever handed out.
   */
  ghost predicate Extends<T>(t: Table<T>, t': Table<T>) {
    && t.nextId <= t'.nextId
    && forall id :: id in t'.rows && id !in t.rows ==> t.nextId <= id < t'.nextId
  }
}
