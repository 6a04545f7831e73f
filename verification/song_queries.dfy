/** The two read-only query handlers (server/src/handlers/get_songs.ts and
    server/src/handlers/get_song.ts), and the validate-then-query procedures
    that put the input validators in front of them. */
module SongQueries {
  import opened Wrappers
  import opened SongSchema
  import opened SongTable
  import opened Strings

  /** Whatever the database driver throws. */
  datatype StorageError = StorageError(message: string)

  /** The database as a handler finds it: reachable with its current rows, or
      failing every statement. */
  datatype Database = Reachable(store: Store) | Unreachable(failure: StorageError)

  /* ---------------------------------------------------------------------- */
  /* getSongs: every row, newest first                                       */
  /* ---------------------------------------------------------------------- */

  /** `ORDER BY created_at DESC`: no row is older than one after it. Rows with
      equal timestamps may come in either order. */
  predicate NewestFirst(s: seq<Song>) {
    forall i, j :: 0 <= i < j < |s| ==> s[i].createdAt >= s[j].createdAt
  }

  /** No two rows carry the same timestamp. */
  predicate DistinctTimestamps(s: seq<Song>) {
    forall i, j :: 0 <= i < j < |s| ==> s[i].createdAt != s[j].createdAt
  }

  function InsertNewestFirst(s: seq<Song>, x: Song): (r: seq<Song>)
    requires NewestFirst(s)
    ensures NewestFirst(r)
    ensures multiset(r) == multiset(s) + multiset{x}
    ensures |r| == |s| + 1
    ensures r[0] == x || (|s| > 0 && r[0] == s[0])
  {
    if |s| == 0 then [x]
    else if x.createdAt >= s[0].createdAt then
      ConsNewestFirst(x, s);
      [x] + s
    else
      var rest := InsertNewestFirst(s[1..], x);
      assert s == [s[0]] + s[1..];
      assert |s| > 1 ==> s[0].createdAt >= s[1].createdAt;
      ConsNewestFirst(s[0], rest);
      [s[0]] + rest
  }

  /** A row no older than the head of a newest-first list may go in front. */
  lemma ConsNewestFirst(h: Song, t: seq<Song>)
    requires NewestFirst(t) && (|t| > 0 ==> h.createdAt >= t[0].createdAt)
    ensures NewestFirst([h] + t)
  {
    var r := [h] + t;
    forall i, j | 0 <= i < j < |r|
      ensures r[i].createdAt >= r[j].createdAt
    {
      if i == 0 {
        assert r[j] == t[j - 1];
      } else {
        assert r[i] == t[i - 1] && r[j] == t[j - 1];
      }
    }
  }

  /** One admissible evaluation order of the ORDER BY. */
  function SortNewestFirst(rows: seq<Song>): (r: seq<Song>)
    ensures NewestFirst(r)
    ensures multiset(r) == multiset(rows)
  {
    if |rows| == 0 then []
    else
      assert rows == [rows[0]] + rows[1..];
      InsertNewestFirst(SortNewestFirst(rows[1..]), rows[0])
  }

  /** The list query: all rows, re-ordered newest first, or the storage
      failure passed on to the caller. */
  function GetSongs(db: Database): (r: Result<seq<Song>, StorageError>)
    ensures db.Unreachable? ==> r == Failure(db.failure)
    ensures db.Reachable? ==>
      && r.Success?
      && NewestFirst(r.value)
      && multiset(r.value) == multiset(db.store.rows)
  {
    match db
    case Unreachable(e) => Failure(e)
    case Reachable(st) => Success(SortNewestFirst(st.rows))
  }

  /** The list is the stored rows exactly: as many, each one present, nothing
      else, every field as stored. An empty table gives an empty list. */
  lemma GetSongsReturnsEveryRow(st: Store)
    ensures GetSongs(Reachable(st)).Success?
    ensures |GetSongs(Reachable(st)).value| == |st.rows|
    ensures forall s :: s in st.rows <==> s in GetSongs(Reachable(st)).value
    ensures st.rows == [] ==> GetSongs(Reachable(st)).value == []
  {
    var r := GetSongs(Reachable(st)).value;
    assert |multiset(r)| == |multiset(st.rows)|;
    forall s
      ensures s in st.rows <==> s in r
    {
      assert s in st.rows <==> s in multiset(st.rows);
      assert s in r <==> s in multiset(r);
    }
  }

  /** With no timestamp shared, the newest-first order is fully determined:
      any two orderings of the same rows that are both newest first coincide. */
  lemma {:induction false} NewestFirstIsUnique(a: seq<Song>, b: seq<Song>)
    requires multiset(a) == multiset(b)
    requires NewestFirst(a) && NewestFirst(b)
    requires DistinctTimestamps(a)
    ensures a == b
    decreases |a|
  {
    assert |a| == |multiset(a)| == |multiset(b)| == |b|;
    if |a| > 0 {
      SameNewest(a, b);
      DropHead(a);
      DropHead(b);
      NewestFirstIsUnique(a[1..], b[1..]);
      assert a == [a[0]] + a[1..];
      assert b == [b[0]] + b[1..];
    }
  }

  /** Both newest-first orderings start with the same row. */
  lemma SameNewest(a: seq<Song>, b: seq<Song>)
    requires multiset(a) == multiset(b) && |a| > 0 && |b| > 0
    requires NewestFirst(a) && NewestFirst(b)
    requires DistinctTimestamps(a)
    ensures a[0] == b[0]
  {
    assert a[0] in multiset(b);
    var k :| 0 <= k < |b| && b[k] == a[0];
    assert b[0] in multiset(a);
    var m :| 0 <= m < |a| && a[m] == b[0];
    assert a[0].createdAt >= a[m].createdAt;
    assert b[0].createdAt >= b[k].createdAt;
    assert m == 0;
  }

  /** Removing the first row keeps the ordering, the distinctness, and the
      remaining rows. */
  lemma DropHead(a: seq<Song>)
    requires |a| > 0
    ensures NewestFirst(a) ==> NewestFirst(a[1..])
    ensures DistinctTimestamps(a) ==> DistinctTimestamps(a[1..])
    ensures multiset(a[1..]) == multiset(a) - multiset{a[0]}
  {
    assert a == [a[0]] + a[1..];
  }

  /** So with distinct timestamps the list query has exactly one possible
      answer: whatever is newest first and holds the stored rows. */
  lemma GetSongsDeterminedByTimestamps(st: Store, expected: seq<Song>)
    requires DistinctTimestamps(st.rows)
    requires multiset(expected) == multiset(st.rows) && NewestFirst(expected)
    ensures GetSongs(Reachable(st)) == Success(expected)
  {
    var r := GetSongs(Reachable(st)).value;
    forall i, j | 0 <= i < j < |expected|
      ensures expected[i].createdAt != expected[j].createdAt
    {
      if expected[i].createdAt == expected[j].createdAt {
        DistinctTimestampsIsPermutationInvariant(st.rows, expected, i, j);
      }
    }
    NewestFirstIsUnique(expected, r);
  }

  /** Two different positions of a permutation of rows with distinct
      timestamps hold different timestamps. */
  lemma DistinctTimestampsIsPermutationInvariant(rows: seq<Song>, p: seq<Song>, i: int, j: int)
    requires DistinctTimestamps(rows)
    requires multiset(p) == multiset(rows)
    requires 0 <= i < j < |p|
    ensures p[i].createdAt != p[j].createdAt
  {
    if p[i] == p[j] {
      MultisetCountTwo(p, i, j);
      DistinctTimestampsOccurOnce(rows, p[i]);
      assert false;
    }
    assert p[i] in multiset(rows) && p[j] in multiset(rows);
    var a :| 0 <= a < |rows| && rows[a] == p[i];
    var b :| 0 <= b < |rows| && rows[b] == p[j];
    assert a != b;
  }

  /** Distinct timestamps mean no row occurs twice. */
  lemma {:induction false} DistinctTimestampsOccurOnce(rows: seq<Song>, x: Song)
    requires DistinctTimestamps(rows)
    ensures multiset(rows)[x] <= 1
  {
    if |rows| > 0 {
      assert rows == [rows[0]] + rows[1..];
      assert multiset(rows) == multiset{rows[0]} + multiset(rows[1..]);
      DistinctTimestampsOccurOnce(rows[1..], x);
      if rows[0] == x {
        assert x !in rows[1..];
      }
    }
  }

  /** An element at two distinct positions occurs at least twice. */
  lemma MultisetCountTwo(p: seq<Song>, i: int, j: int)
    requires 0 <= i < j < |p| && p[i] == p[j]
    ensures multiset(p)[p[i]] >= 2
  {
    assert p == p[..i] + [p[i]] + p[i+1..j] + [p[j]] + p[j+1..];
  }

  /* ---------------------------------------------------------------------- */
  /* getSong: lookup by primary key                                          */
  /* ---------------------------------------------------------------------- */

  /** `WHERE id = ?`, in stored order. */
  function RowsWithId(rows: seq<Song>, id: int): (r: seq<Song>)
    ensures forall s :: s in r <==> s in rows && s.id == id
  {
    if |rows| == 0 then []
    else (if rows[0].id == id then [rows[0]] else []) + RowsWithId(rows[1..], id)
  }

  /** What PostgreSQL raises when the id parameter, typed after the 4-byte
      `id` column it is compared with, does not fit that type. */
  function OutOfRangeForInteger(id: nat): StorageError {
    StorageError("value \"" + Decimal(id) + "\" is out of range for type integer")
  }

  /** The single-song query: the first matching row, `None` when nothing
      matches (not an error), or the storage failure passed on. An id beyond
      the 4-byte range fails in the database before any row is looked at. */
  function GetSong(db: Database, input: GetSongInput): (r: Result<Option<Song>, StorageError>)
    ensures db.Unreachable? ==> r == Failure(db.failure)
    ensures db.Reachable? ==> (r.Success? <==> input.id <= MaxSerial)
    ensures db.Reachable? && input.id > MaxSerial ==> r == Failure(OutOfRangeForInteger(input.id))
    ensures r.Success? && r.value.Some? ==>
      r.value.value in db.store.rows && r.value.value.id == input.id
    ensures r.Success? ==>
      (r.value.None? <==> forall s :: s in db.store.rows ==> s.id != input.id)
  {
    match db
    case Unreachable(e) => Failure(e)
    case Reachable(st) =>
      if input.id > MaxSerial then Failure(OutOfRangeForInteger(input.id))
      else
        var found := RowsWithId(st.rows, input.id);
        if |found| == 0 then Success(None) else Success(Some(found[0]))
  }

  /** The range failure hides no row: a valid table holds no id beyond the
      4-byte range. */
  lemma OutOfRangeIdIsAbsent(st: Store, id: int)
    requires Valid(st) && id > MaxSerial
    ensures forall s :: s in st.rows ==> s.id != id
  {
    forall s | s in st.rows
      ensures s.id != id
    {
      var i :| 0 <= i < |st.rows| && st.rows[i] == s;
      assert s.id < st.nextSerial;
    }
  }

  /** Asking for a stored row's id yields that very row, name, URL and
      timestamp included, because ids are unique. */
  lemma GetSongFindsStoredRow(st: Store, s: Song)
    requires Valid(st)
    requires s in st.rows
    ensures s.id > 0
    ensures GetSong(Reachable(st), GetSongInput(s.id)) == Success(Some(s))
  {
    var i :| 0 <= i < |st.rows| && st.rows[i] == s;
    var r := GetSong(Reachable(st), GetSongInput(s.id));
    assert r.value.Some?;
    var t := r.value.value;
    var j :| 0 <= j < |st.rows| && st.rows[j] == t;
    assert i == j;
  }

  /** Inserting a song and then asking for the id it was given returns it
      with the name and URL that were inserted; the list query holds it too. */
  lemma InsertThenQuery(st: Store, row: NewSong, now: Timestamp)
    requires Valid(st)
    requires Insert(st, row, now).result.Success?
    ensures var o := Insert(st, row, now);
      && o.result.value.id > 0
      && GetSong(Reachable(o.store), GetSongInput(o.result.value.id)) == Success(Some(o.result.value))
      && o.result.value.name == row.name.value
      && o.result.value.audioUrl == row.audioUrl.value
      && o.result.value in GetSongs(Reachable(o.store)).value
  {
    var o := Insert(st, row, now);
    assert o.result.value in o.store.rows;
    GetSongFindsStoredRow(o.store, o.result.value);
    GetSongsReturnsEveryRow(o.store);
  }

  /** The ordering scenario: into an empty table insert one song, then a
      second strictly later; the list query puts the later one first. */
  lemma LaterInsertListedFirst(name1: string, url1: string, t1: Timestamp,
                               name2: string, url2: string, t2: Timestamp)
    requires t1 < t2
    ensures var o1 := Insert(EmptyStore, NewSong(Given(name1), Given(url1), Omitted), t1);
      var o2 := Insert(o1.store, NewSong(Given(name2), Given(url2), Omitted), t2);
      && o2.result.Success?
      && GetSongs(Reachable(o2.store)) == Success([o2.result.value, o1.result.value])
      && o2.result.value.name == name2 && o1.result.value.name == name1
  {
    var o1 := Insert(EmptyStore, NewSong(Given(name1), Given(url1), Omitted), t1);
    var o2 := Insert(o1.store, NewSong(Given(name2), Given(url2), Omitted), t2);
    assert o2.store.rows == [o1.result.value, o2.result.value];
    OlderThenNewer(o2.store, o1.result.value, o2.result.value);
  }

  /** Two rows stored oldest first are listed the other way round. */
  lemma OlderThenNewer(st: Store, older: Song, newer: Song)
    requires st.rows == [older, newer] && older.createdAt < newer.createdAt
    ensures GetSongs(Reachable(st)) == Success([newer, older])
  {
    var expected := [newer, older];
    assert multiset(expected) == multiset(st.rows);
    GetSongsDeterminedByTimestamps(st, expected);
  }

  /* ---------------------------------------------------------------------- */
  /* Validate, then query                                                    */
  /* ---------------------------------------------------------------------- */

  /** The two failure kinds a caller can tell apart. */
  datatype QueryError = ValidationError(issues: seq<Issue>) | StorageFailure(cause: StorageError)

  /** The list procedure: validate the (empty) input, then run the query. */
  function GetSongsProcedure(payload: Json, db: Database): (r: Result<seq<Song>, QueryError>)
    ensures !payload.JObject? ==> r == Failure(ValidationError([ExpectedObject]))
    ensures payload.JObject? && db.Unreachable? ==> r == Failure(StorageFailure(db.failure))
    ensures payload.JObject? && db.Reachable? ==>
      r.Success? && NewestFirst(r.value) && multiset(r.value) == multiset(db.store.rows)
  {
    match ParseGetSongsInput(payload)
    case Failure(issues) => Failure(ValidationError(issues))
    case Success(_) =>
      match GetSongs(db)
      case Failure(e) => Failure(StorageFailure(e))
      case Success(songs) => Success(songs)
  }

  /** The single-song procedure: validate the id, then run the lookup. */
  function GetSongProcedure(payload: Json, db: Database): (r: Result<Option<Song>, QueryError>)
    ensures ParseGetSongInput(payload).Failure? <==> r.Failure? && r.error.ValidationError?
    ensures ParseGetSongInput(payload).Success? && db.Unreachable? ==>
      r == Failure(StorageFailure(db.failure))
    ensures ParseGetSongInput(payload).Success? && db.Reachable? ==>
      var id := ParseGetSongInput(payload).value.id;
      && (id > MaxSerial ==> r == Failure(StorageFailure(OutOfRangeForInteger(id))))
      && (id <= MaxSerial ==>
            r.Success? && (r.value.None? <==> forall s :: s in db.store.rows ==> s.id != id))
    ensures r.Success? && r.value.Some? ==>
      db.Reachable? && r.value.value in db.store.rows &&
      r.value.value.id as real == payload.fields["id"].n
  {
    match ParseGetSongInput(payload)
    case Failure(issues) => Failure(ValidationError(issues))
    case Success(input) =>
      match GetSong(db, input)
      case Failure(e) => Failure(StorageFailure(e))
      case Success(found) => Success(found)
  }

  /** A malformed id is rejected without consulting storage: the answer is
      the same whatever state the database is in. */
  lemma ValidationPrecedesStorage(payload: Json, db1: Database, db2: Database)
    requires ParseGetSongInput(payload).Failure?
    ensures GetSongProcedure(payload, db1) == GetSongProcedure(payload, db2)
    ensures GetSongProcedure(payload, db1).Failure?
  {
  }
}
