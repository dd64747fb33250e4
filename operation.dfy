/**
 * The request-level operations of the benchmark (class Operation): one random
 * World row, a batch of random World rows, a batch of read-modify-write
 * updates, and the fortunes page. Each `mt_rand(1, 10000)` draw is an element
 * of a caller-supplied sequence, consumed in order.
 */
module Operation {
  import opened Store
  import opened KeyPair
  import opened MessageSort
  import opened Html

  /** Upper bound on the statements one request may run. */
  const MaxQueries := 500

  /** The fortune added to the listing at request time, under id 0. */
  const AdditionalFortune := "Additional fortune added at request time."

  /** Everything the fortunes page puts before the rows. */
  const PageHead := "<!DOCTYPE html><html><head><title>Fortunes</title></head><body><table><tr><th>id</th><th>message</th></tr>"

  /** Everything the fortunes page puts after the rows. */
  const PageTail := "</table></body></html>"

  /**
   * How many statements `query` and `updates` run when `queries` were asked
   * for: a count of one or less (zero and negatives included) runs one, a
   * larger count runs that many, up to 500.
   */
  function QueryCount(queries: int): (n: int)
    ensures 1 <= n <= MaxQueries
    ensures queries <= 1 ==> n == 1
    ensures 1 <= queries <= MaxQueries ==> n == queries
    ensures queries >= MaxQueries ==> n == MaxQueries
  {
    if queries > 1 then Min(queries, MaxQueries) else 1
  }

  function Min(a: int, b: int): int {
    if a < b then a else b
  }

  /** Clamping an already clamped count changes nothing. */
  lemma QueryCountIdempotent(queries: int)
    ensures QueryCount(QueryCount(queries)) == QueryCount(queries)
  {
  }

  /** Asking for more never runs fewer statements. */
  lemma QueryCountMonotone(q1: int, q2: int)
    requires q1 <= q2
    ensures QueryCount(q1) <= QueryCount(q2)
  {
  }

  /** `db`: the World row of one drawn id. */
  method Db(db: Database, id: int) returns (row: World)
    requires db.Populated() && db.ValuesInRange()
    requires InRange(id)
    ensures row.id == id && row.randomNumber == db.world[id]
    ensures InRange(row.randomNumber)
  {
    row := World(id, db.world[id]);
  }

  /**
   * `query`: one point read per drawn id, the rows in the order they were
   * read. The store is not written.
   */
  method Query(db: Database, queries: int, ids: seq<int>) returns (results: seq<World>)
    requires db.Populated() && db.ValuesInRange()
    requires |ids| >= QueryCount(queries) && AllInRange(ids)
    ensures |results| == QueryCount(queries)
    ensures forall i :: 0 <= i < |results| ==> results[i] == World(ids[i], db.world[ids[i]])
    ensures forall i :: 0 <= i < |results| ==> InRange(results[i].id) && InRange(results[i].randomNumber)
  {
    var count := QueryCount(queries);
    results := [];
    while count != 0
      invariant 0 <= count && |results| + count == QueryCount(queries)
      invariant forall i :: 0 <= i < |results| ==> results[i] == World(ids[i], db.world[ids[i]])
    {
      count := count - 1;
      var row := Db(db, ids[|results|]);
      results := results + [row];
    }
  }

  /**
   * `updates`: per iteration, the row of a drawn id is read, its randomNumber
   * is replaced by a second draw, that value is written back to the store,
   * and the modified row is appended to the result. The store afterwards is
   * the old store with the returned rows written in order.
   */
  method Updates(db: Database, queries: int, ids: seq<int>, values: seq<int>) returns (results: seq<World>)
    requires db.Populated() && db.ValuesInRange()
    requires |ids| >= QueryCount(queries) && AllInRange(ids)
    requires |values| >= QueryCount(queries) && AllInRange(values)
    modifies db`world
    ensures |results| == QueryCount(queries)
    ensures forall i :: 0 <= i < |results| ==> results[i] == World(ids[i], values[i])
    ensures forall i :: 0 <= i < |results| ==> InRange(results[i].id) && InRange(results[i].randomNumber)
    ensures db.world == Replay(old(db.world), results)
    ensures db.Populated() && db.ValuesInRange()
  {
    var count := QueryCount(queries);
    results := [];
    while count != 0
      invariant 0 <= count && |results| + count == QueryCount(queries)
      invariant forall i :: 0 <= i < |results| ==> results[i] == World(ids[i], values[i])
      invariant db.world == Replay(old(db.world), results)
      invariant db.Populated()
    {
      count := count - 1;
      var id := ids[|results|];
      var item := World(id, db.world[id]);
      item := item.(randomNumber := values[|results|]);
      db.world := db.world[id := item.randomNumber];
      ReplayAppend(old(db.world), results, item);
      results := results + [item];
    }
    ReplayKeepsRange(old(db.world), results);
  }

  /**
   * The fortunes as the page lists them: the fetched id => message pairs,
   * id 0 set to the added fortune, sorted by message.
   */
  function Listing(rows: seq<Fortune>): seq<Fortune> {
    SortByMessage(Put(KeyPairs(rows), 0, AdditionalFortune))
  }

  /** One table row: the id as written, the message escaped. */
  function Row(e: Fortune): string {
    "<tr><td>" + IntToString(e.id) + "</td><td>" + Escape(e.message) + "</td></tr>"
  }

  function Rows(entries: seq<Fortune>): string {
    if entries == [] then ""
    else Rows(entries[..|entries| - 1]) + Row(entries[|entries| - 1])
  }

  function Document(entries: seq<Fortune>): string {
    PageHead + Rows(entries) + PageTail
  }

  /**
   * `fortunes`: the fetched pairs, id 0 set to the added fortune, sorted by
   * message, then rendered.
   */
  method Fortunes(db: Database) returns (html: string)
    ensures html == Document(Listing(db.fortune))
  {
    var results := KeyPairs(db.fortune);
    results := Put(results, 0, AdditionalFortune);
    results := SortByMessage(results);
    html := Render(results);
  }

  /** The second half of `fortunes`: one row per entry, in order, inside the fixed page. */
  method Render(results: seq<Fortune>) returns (html: string)
    ensures html == Document(results)
  {
    var rows := "";
    for i := 0 to |results|
      invariant rows == Rows(results[..i])
    {
      var message := Escape(results[i].message);
      var row := "<tr><td>" + IntToString(results[i].id) + "</td><td>" + message + "</td></tr>";
      assert results[..i + 1][..i] == results[..i];
      rows := rows + row;
    }
    assert results[..|results|] == results;
    html := PageHead + rows + PageTail;
  }

  /**
   * The listing holds each id once with its message, exactly the entries of
   * the fetched map with id 0 set to the added fortune, in non-decreasing
   * order of message.
   */
  lemma ListingContents(rows: seq<Fortune>)
    ensures Unique(Listing(rows))
    ensures Sorted(Listing(rows))
    ensures forall e :: e in Listing(rows) <==>
      e.id in AsMap(rows)[0 := AdditionalFortune] && AsMap(rows)[0 := AdditionalFortune][e.id] == e.message
    ensures Fortune(0, AdditionalFortune) in Listing(rows)
  {
    var fetched := Put(KeyPairs(rows), 0, AdditionalFortune);
    SortUnique(fetched);
    SortSorted(fetched);
    SortKeepsEntries(fetched);
  }

  /** Fortunes with equal messages are listed in the order the fetch produced them. */
  lemma ListingStable(rows: seq<Fortune>, m: string)
    ensures WithMessage(Listing(rows), m) == WithMessage(Put(KeyPairs(rows), 0, AdditionalFortune), m)
  {
    SortStable(Put(KeyPairs(rows), 0, AdditionalFortune), m);
  }

  /**
   * The page holds exactly the tags of its fixed skeleton plus six per row:
   * neither an id nor an escaped message adds markup.
   */
  lemma {:induction false} DocumentTags(entries: seq<Fortune>)
    ensures Tags(Document(entries)) == Tags(PageHead) + 6 * |entries| + Tags(PageTail)
  {
    RowsTags(entries);
  }

  lemma {:induction false} RowsTags(entries: seq<Fortune>)
    ensures Tags(Rows(entries)) == 6 * |entries|
  {
    if entries != [] {
      var e := entries[|entries| - 1];
      RowsTags(entries[..|entries| - 1]);
      assert '<' !in multiset(IntToString(e.id));
      assert '<' !in multiset(Escape(e.message));
    }
  }
}
