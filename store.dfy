/**
 * The two tables the benchmark operations use, abstracted as values held by
 * one object: the World table (id -> randomNumber) and the Fortune table
 * (its rows in the order a full-table select returns them).
 */
module Store {

  /** The draws `mt_rand(1, 10000)` lie in [1, MaxId]; so do the World ids. */
  const MaxId := 10000

  /** A row of the World table, as fetched with PDO::FETCH_ASSOC. */
  datatype World = World(id: int, randomNumber: int)

  /** A row of the Fortune table; also an `id => message` entry of a PHP array. */
  datatype Fortune = Fortune(id: int, message: string)

  predicate InRange(x: int) {
    1 <= x <= MaxId
  }

  /** Every draw of a caller-supplied stream lies in the range of mt_rand(1, 10000). */
  predicate AllInRange(draws: seq<int>) {
    forall i :: 0 <= i < |draws| ==> InRange(draws[i])
  }

  /** The backing store. The operations only read `fortune`; `updates` writes `world`. */
  class Database {
    var world: map<int, int>
    var fortune: seq<Fortune>

    /** Every id a draw can produce has a row. */
    ghost predicate Populated()
      reads this
    {
      forall id :: InRange(id) ==> id in world
    }

    /** Every stored randomNumber lies in the range the seeding and `updates` draw from. */
    ghost predicate ValuesInRange()
      reads this
    {
      NumbersInRange(world)
    }

    constructor (world: map<int, int>, fortune: seq<Fortune>)
      ensures this.world == world && this.fortune == fortune
    {
      this.world := world;
      this.fortune := fortune;
    }
  }

  /** Written out rather than through InRange, so that it and Populated() do not instantiate each other endlessly. */
  predicate NumbersInRange(w: map<int, int>) {
    forall id :: id in w ==> 1 <= w[id] <= MaxId
  }

  /** Some write of `writes` is to row `id`. */
  predicate Touches(writes: seq<World>, id: int) {
    exists i :: 0 <= i < |writes| && writes[i].id == id
  }

  /**
   * The World table after `UPDATE World SET randomNumber = ? WHERE id = ?` has
   * run once per element of `writes`, in order. An update of an id without a
   * row changes nothing, so the set of ids never changes.
   */
  function Replay(w: map<int, int>, writes: seq<World>): (r: map<int, int>)
    ensures forall id :: id in r <==> id in w
  {
    if writes == [] then w
    else
      var last := writes[|writes| - 1];
      var r' := Replay(w, writes[..|writes| - 1]);
      if last.id in r' then r'[last.id := last.randomNumber] else r'
  }

  /** One more update statement, on a row that exists. */
  lemma ReplayAppend(w: map<int, int>, writes: seq<World>, x: World)
    requires x.id in w
    ensures Replay(w, writes + [x]) == Replay(w, writes)[x.id := x.randomNumber]
  {
    assert (writes + [x])[..|writes|] == writes;
  }

  /** Writing values in range into a table whose values are in range keeps them in range. */
  lemma {:induction false} ReplayKeepsRange(w: map<int, int>, writes: seq<World>)
    requires NumbersInRange(w)
    requires forall i :: 0 <= i < |writes| ==> InRange(writes[i].randomNumber)
    ensures NumbersInRange(Replay(w, writes))
  {
    if writes != [] {
      var init := writes[..|writes| - 1];
      assert forall i :: 0 <= i < |init| ==> init[i] == writes[i];
      ReplayKeepsRange(w, init);
    }
  }

  /** A row written several times keeps the value of its last write. */
  lemma {:induction false} ReplayLastWriteWins(w: map<int, int>, writes: seq<World>, i: nat)
    requires i < |writes|
    requires writes[i].id in w
    requires forall j :: i < j < |writes| ==> writes[j].id != writes[i].id
    ensures Replay(w, writes)[writes[i].id] == writes[i].randomNumber
  {
    if i < |writes| - 1 {
      var init := writes[..|writes| - 1];
      ReplayLastWriteWins(w, init, i);
    }
  }

  /** A row no write touches keeps its value. */
  lemma {:induction false} ReplayUntouched(w: map<int, int>, writes: seq<World>, id: int)
    requires id in w
    requires !Touches(writes, id)
    ensures Replay(w, writes)[id] == w[id]
  {
    if writes != [] {
      var init := writes[..|writes| - 1];
      assert !Touches(init, id) by {
        forall i | 0 <= i < |init| ensures init[i].id != id {
          assert init[i] == writes[i];
        }
      }
      ReplayUntouched(w, init, id);
    }
  }
}
