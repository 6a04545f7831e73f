/** The `songs` table (server/src/db/schema.ts) as a store of rows, and the
    one way a row gets into it. */
module SongTable {
  import opened Wrappers
  import opened SongSchema

  /** Largest value a `serial` (4-byte signed integer) column can take. */
  const MaxSerial: int := 2147483647

  /** The stored rows, in physical order, and the next value of the `id`
      column's sequence. */
  datatype Store = Store(rows: seq<Song>, nextSerial: int)

  /** A freshly created table. */
  const EmptyStore: Store := Store([], 1)

  /** The primary key: no two rows share an id. */
  predicate UniqueIds(rows: seq<Song>) {
    forall i, j :: 0 <= i < j < |rows| ==> rows[i].id != rows[j].id
  }

  /** The table invariant: unique ids, every id drawn from the sequence
      (so between 1 and the value the sequence will hand out next), and the
      sequence still within the 4-byte range. */
  predicate Valid(st: Store) {
    && 1 <= st.nextSerial <= MaxSerial + 1
    && UniqueIds(st.rows)
    && forall i :: 0 <= i < |st.rows| ==> 1 <= st.rows[i].id < st.nextSerial
  }

  /** A column value in an INSERT: left out (the column default applies),
      an explicit NULL, or a value. */
  datatype Column<+T> = Omitted | Null | Given(value: T)

  /** The insertable columns; `id` always comes from its sequence. */
  datatype NewSong = NewSong(name: Column<string>, audioUrl: Column<string>, createdAt: Column<Timestamp>)

  datatype DbError = NotNullViolation(column: string) | SerialExhausted

  /** An INSERT changes the store even when it fails: a sequence value,
      once drawn, is not given back. */
  datatype InsertOutcome = InsertOutcome(store: Store, result: Result<Song, DbError>)

  /** `name` and `audio_url` have no default and may not be NULL;
      `created_at` has a default but may not be NULL either. */
  predicate SatisfiesNotNull(row: NewSong) {
    row.name.Given? && row.audioUrl.Given? && !row.createdAt.Null?
  }

  /** INSERT of one row at wall-clock time `now`. The `id` default draws the
      next sequence value first; the NOT NULL checks then run column by
      column; on success the row is appended. */
  function Insert(st: Store, row: NewSong, now: Timestamp): (o: InsertOutcome)
    ensures Valid(st) ==> Valid(o.store)
    ensures o.result.Success? <==> st.nextSerial <= MaxSerial && SatisfiesNotNull(row)
    ensures o.result.Failure? ==> o.store.rows == st.rows
    ensures o.result.Success? ==>
      && o.store.rows == st.rows + [o.result.value]
      && o.result.value.name == row.name.value
      && o.result.value.audioUrl == row.audioUrl.value
      && o.result.value.createdAt == (if row.createdAt.Given? then row.createdAt.value else now)
    ensures Valid(st) && o.result.Success? ==>
      && 1 <= o.result.value.id <= MaxSerial
      && forall s :: s in st.rows ==> s.id < o.result.value.id
  {
    if st.nextSerial > MaxSerial then
      InsertOutcome(st, Failure(SerialExhausted))
    else
      var id := st.nextSerial;
      var drawn := st.(nextSerial := id + 1);
      if !row.name.Given? then InsertOutcome(drawn, Failure(NotNullViolation("name")))
      else if !row.audioUrl.Given? then InsertOutcome(drawn, Failure(NotNullViolation("audio_url")))
      else if row.createdAt.Null? then InsertOutcome(drawn, Failure(NotNullViolation("created_at")))
      else
        var createdAt := if row.createdAt.Given? then row.createdAt.value else now;
        var song := Song(id, row.name.value, row.audioUrl.value, createdAt);
        InsertOutcome(Store(st.rows + [song], id + 1), Success(song))
  }
}
