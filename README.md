# Swoole benchmark operations, modelled in Dafny

This project models the request-level logic of the PHP Swoole entry of the web
framework benchmark: the class `Operation` in
`frameworks/PHP/swoole/database.php`. It has four operations.

- `db` reads the World row of one random id.
- `query` reads a batch of random World rows. The requested count is clamped
  to [1, 500].
- `updates` does a batch of read-modify-write steps. Each step reads the row of
  a random id, gives it a new random `randomNumber`, writes that value back and
  returns the modified row.
- `fortunes` lists the Fortune table plus one fortune added at request time,
  sorted by message. It renders the list as an HTML table with each message
  escaped.

The database is the class `Store.Database`. Its field `world` is a
`map<int, int>` from id to randomNumber. Its field `fortune` holds the Fortune
rows in the order a full-table select returns them. `updates` changes `world`
in place, in a loop. Each `mt_rand(1, 10000)` draw is an element of a
caller-supplied sequence, used in order: `ids` holds the row ids and `values`
holds the new randomNumbers. Every draw is required to lie in [1, 10000].
The store is required to hold a row for every id in that range
(`Database.Populated()`) and a randomNumber in that range in every row
(`Database.ValuesInRange()`); `Updates` keeps both.

Modules, leaves first:

- `Store`: the World and Fortune records, the `Database` class, and `Replay`.
  `Replay` is the World table after a sequence of `UPDATE … WHERE id = ?`
  statements. An update of an id without a row changes nothing.
- `KeyPair`: the PHP array that `fetchAll(PDO::FETCH_KEY_PAIR)` builds. It is an
  ordered id ⇒ message map, written as its entries in iteration order. `Put`
  models `$a[k] = v`.
- `MessageSort`: `asort`, a stable sort by message that keeps each id with its
  message.
- `Html`: `htmlspecialchars(…, ENT_QUOTES)` and its inverse. It also holds the
  decimal form of an interpolated integer.
- `Operation`: clamping, `Db`, `Query`, `Updates`, `Fortunes`, and the
  properties of the fortunes page.

Two consequences of the code are worth stating on their own:

- The fortune added at request time is assigned to key 0. A fetched row with
  id 0 is therefore overwritten where it stands; otherwise the entry is
  appended (`KeyPair.Put`).
- When `updates` draws an id more than once, the store ends with the value of
  the last returned record with that id. Earlier records with that id show
  values that were later overwritten (`Store.ReplayLastWriteWins`).

## Model

| member | source | states |
|---|---|---|
| Operation.QueryCount | frameworks/PHP/swoole/database.php:39-42 | the effective batch size is 1 when the request is at most 1 (zero and negatives included), the request itself up to 500, and 500 above; it always lies in [1, 500]; `updates` clamps with the same code (lines 55-58) |
| Operation.QueryCountIdempotent | frameworks/PHP/swoole/database.php:39-42 | clamping a count that was already clamped leaves it unchanged |
| Operation.QueryCountMonotone | frameworks/PHP/swoole/database.php:39-42 | asking for more queries never runs fewer |
| Operation.Db | frameworks/PHP/swoole/database.php:15-19 | the single fetch returns the row of the drawn id: that id and the store's randomNumber for it, which lies in [1, 10000] |
| Operation.Query | frameworks/PHP/swoole/database.php:37-51 | exactly effective-count records; the i-th is the store row of the i-th drawn id; its id and its randomNumber are both in [1, 10000]; the store is not written (no modifies clause) |
| Operation.Updates | frameworks/PHP/swoole/database.php:53-71 | exactly effective-count records; the i-th has the i-th drawn id and the i-th new value, both in [1, 10000]; the new store is the old store with the returned records written in order; every id in [1, 10000] still has a row, and every stored randomNumber is still in [1, 10000] |
| Store.Replay | frameworks/PHP/swoole/database.php:65 | the update statements neither add nor drop a row: the table has exactly the ids it had before, and an update of an id without a row changes nothing |
| Store.ReplayKeepsRange | frameworks/PHP/swoole/database.php:65 | writing values in [1, 10000] into a table whose values all lie in [1, 10000] leaves every value in that range |
| Store.ReplayLastWriteWins | frameworks/PHP/swoole/database.php:61-68 | after the batch, a written id holds the value of its last write in the batch, which is the randomNumber of the last returned record with that id |
| Store.ReplayUntouched | frameworks/PHP/swoole/database.php:61-68 | an id the batch never drew keeps its old randomNumber |
| KeyPair.Put | frameworks/PHP/swoole/database.php:25 | `$a[k] = v` keeps ids unique; an existing key keeps its position and takes the new value; a new key is appended; no other entry changes |
| KeyPair.AsMap | frameworks/PHP/swoole/database.php:24 | the last-one-wins map of the fetched rows has exactly the fetched ids as keys |
| KeyPair.KeyPairs | frameworks/PHP/swoole/database.php:24 | the key-pair fetch holds each id once, and its entries are exactly those of the last-one-wins id ⇒ message map of the rows |
| KeyPair.KeyPairsOfDistinctRows | frameworks/PHP/swoole/database.php:24 | when the fetched ids are distinct, the key-pair fetch keeps every row in fetch order |
| MessageSort.BelowTotal | frameworks/PHP/swoole/database.php:26 | any two messages are comparable under the sort order |
| MessageSort.BelowTransitive | frameworks/PHP/swoole/database.php:26 | the sort order is transitive |
| MessageSort.BelowAntisymmetric | frameworks/PHP/swoole/database.php:26 | two messages that are each below the other are equal |
| MessageSort.SortByMessage | frameworks/PHP/swoole/database.php:26 | `asort` returns a permutation of its input (equal multisets of entries, so each id stays with its message) |
| MessageSort.SortSorted | frameworks/PHP/swoole/database.php:26 | after `asort` the messages are in non-decreasing order |
| MessageSort.SortKeepsEntries | frameworks/PHP/swoole/database.php:26 | `asort` keeps exactly the same entries and the same length |
| MessageSort.SortUnique | frameworks/PHP/swoole/database.php:26 | sorting an array with distinct ids leaves the ids distinct |
| MessageSort.SortStable | frameworks/PHP/swoole/database.php:26 | for every message, the entries carrying it keep their relative order (PHP 8 sorts stably) |
| Html.EscapeChar | frameworks/PHP/swoole/database.php:30 | each character's replacement is non-empty and holds no raw `<`, `>`, `"` or `'` |
| Html.Escape | frameworks/PHP/swoole/database.php:30 | the escaped message contains no raw `<`, `>`, `"` or `'`; it is never shorter than the input; a message without any of `& < > " '` is left unchanged |
| Html.EscapeRoundTrip | frameworks/PHP/swoole/database.php:30 | decoding `&amp; &lt; &gt; &quot; &#039;` recovers the original message, so escaping maps each of the five characters to its own reference and keeps every other character |
| Html.NatToString | frameworks/PHP/swoole/database.php:31 | a non-negative id is written as at least one decimal digit, without leading zeros |
| Html.IntToString | frameworks/PHP/swoole/database.php:31 | the unescaped id column never holds a character that escaping would replace |
| Html.IntToStringRoundTrip | frameworks/PHP/swoole/database.php:31 | the id column reads back as the id it was printed from |
| Operation.Fortunes | frameworks/PHP/swoole/database.php:21-35 | the page is the document of the key-pair fetch, with id 0 set to the added fortune, sorted by message |
| Operation.Render | frameworks/PHP/swoole/database.php:28-34 | the loop builds the fixed prefix and header row, then one row per entry in order (id, then escaped message), then the fixed suffix |
| Operation.ListingContents | frameworks/PHP/swoole/database.php:24-26 | the listed fortunes are sorted by message; each id appears once; the entries are exactly those of the fetched map with key 0 set to "Additional fortune added at request time.", so id 0 appears once with that message |
| Operation.ListingStable | frameworks/PHP/swoole/database.php:26 | fortunes with equal messages are listed in their order after the fetch and the id-0 assignment |
| Operation.DocumentTags | frameworks/PHP/swoole/database.php:28-34 | the page opens exactly the tags of its skeleton plus six per row: no id or message adds markup |

## Left out

- The classes `Connection` and `Connections` (database.php:74-184) are not part of this model. They cover PDO setup, statement preparation, and handing out and taking back pooled connections.
- `frameworks/Rust/xitca-web/src/main.rs` is not part of this model. It is HTTP routing and server setup with no logic of its own.
- `json_encode(…, JSON_NUMERIC_CHECK)` is a foreign serialiser. `db`, `query` and `updates` return the records themselves, not JSON text.
- `mt_rand` is randomness. Its draws are input sequences with a range precondition.
- A drawn id with no row is excluded: `Database.Populated()` requires every id in [1, 10000] to have a row. PDO's `fetch` would return `false` there.
- A stored randomNumber outside [1, 10000] is excluded: `Database.ValuesInRange()` requires every row's value to lie in that range, as the seeded table's values and every value `updates` writes do.
- Statement failures are not modelled. The source runs PDO in exception mode, so they abort the whole call.
- Writers in other requests running at the same time are not modelled.
- MessageSort.SortByMessage: messages are compared by code point, which is the byte order of their UTF-8 form. PHP's default `SORT_REGULAR` compares two numeric-looking strings as numbers, and this model does not do that.
- Html.Escape: strings are sequences of Unicode scalar values, so the model has no invalid UTF-8 input. For invalid input `htmlspecialchars` returns the empty string.
- PHP's 64-bit integers are modelled as unbounded. The clamped count is at most 500, and ids and values are at most 10000, so no computation here comes near the limit.
