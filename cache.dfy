/** The delivery cache: a table keyed by URL (`url TEXT PRIMARY KEY`) that
    remembers the Telegram file id of media already delivered, so that a
    repeated request can be answered by resending that id. */
module DeliveryCache {
  import opened Wrappers

  /** One row of the `cache` table, without its URL key and timestamp. */
  datatype Entry = Entry(fileId: string, kind: string, size: int, duration: int)

  /** The row `set_cache(url, fileId, kind, size, duration)` writes:
      `duration or 0` turns a missing duration into 0. */
  function Row(fileId: string, kind: string, size: int, duration: Option<int>): (e: Entry)
    ensures e.fileId == fileId && e.kind == kind && e.size == size
    ensures duration.Some? ==> e.duration == duration.value
    ensures duration.None? ==> e.duration == 0
  {
    Entry(fileId, kind, size, IntOr(duration, 0))
  }

  /** The SQL upsert `INSERT ... ON CONFLICT(url) DO UPDATE SET` on the table
      seen as a map: the row for `url` is replaced whole, other rows stay. */
  function Upsert(rows: map<string, Entry>, url: string, e: Entry): (r: map<string, Entry>)
    ensures r.Keys == rows.Keys + {url}
    ensures url in r && r[url] == e
    ensures forall u :: u in rows && u != url ==> r[u] == rows[u]
  {
    rows[url := e]
  }

  /** The table keeps one row per URL: an upsert adds a row only for a new URL. */
  lemma UpsertRowCount(rows: map<string, Entry>, url: string, e: Entry)
    ensures |Upsert(rows, url, e)| == if url in rows then |rows| else |rows| + 1
  {
    var r := Upsert(rows, url, e);
    if url in rows {
      assert r.Keys == rows.Keys;
    } else {
      assert r.Keys == rows.Keys + {url};
    }
  }

  /** A second upsert of the same URL wins completely: nothing of the first
      write survives (no merge of old fields). */
  lemma {:induction false} UpsertLastWins(rows: map<string, Entry>, url: string, e1: Entry, e2: Entry)
    ensures Upsert(Upsert(rows, url, e1), url, e2) == Upsert(rows, url, e2)
  {
    var lhs := Upsert(Upsert(rows, url, e1), url, e2);
    var rhs := Upsert(rows, url, e2);
    assert lhs.Keys == rhs.Keys;
    forall u | u in lhs
      ensures lhs[u] == rhs[u]
    {
    }
  }

  /** The persistent cache table. */
  class Store {
    var rows: map<string, Entry>

    /** `init_db`: `CREATE TABLE IF NOT EXISTS` keeps whatever rows the
        database file already holds (`onDisk`, the empty map on a first run). */
    constructor (onDisk: map<string, Entry>)
      ensures rows == onDisk
    {
      rows := onDisk;
    }

    /** `get_cache(url)`: the row for `url`, or None when there is none. */
    method Get(url: string) returns (r: Option<Entry>)
      ensures r.Some? <==> url in rows
      ensures r.Some? ==> r.value == rows[url]
    {
      if url in rows {
        r := Some(rows[url]);
      } else {
        r := None;
      }
    }

    /** `set_cache(url, fileId, kind, size, duration)`: upsert of one row. */
    method Set(url: string, fileId: string, kind: string, size: int, duration: Option<int>)
      modifies this
      ensures rows == Upsert(old(rows), url, Row(fileId, kind, size, duration))
      ensures url in rows && rows[url] == Entry(fileId, kind, size, if duration.Some? then duration.value else 0)
      ensures forall u :: u != url ==> (u in rows <==> u in old(rows))
      ensures forall u :: u != url && u in rows ==> rows[u] == old(rows)[u]
      ensures |rows| == if url in old(rows) then |old(rows)| else |old(rows)| + 1
    {
      UpsertRowCount(rows, url, Row(fileId, kind, size, duration));
      rows := Upsert(rows, url, Row(fileId, kind, size, duration));
    }
  }
}
