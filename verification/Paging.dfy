/** The platform inventory: a table is read page by page up to a ceiling, and the answer says
    whether the whole table was seen. */
module Paging {
  import opened Wrappers

  const BATCH_SIZE: nat := 500

  datatype Inventory<T> = Inventory(rows: seq<T>, complete: bool)

  datatype ReadError = ReadError

  function Min(a: int, b: int): int {
    if a < b then a else b
  }

  /** The rows of an ordered table that one limit-and-offset query returns. */
  function Page<T>(table: seq<T>, offset: nat, limit: nat): (page: seq<T>)
    ensures |page| == Min(limit, if offset <= |table| then |table| - offset else 0)
  {
    if offset >= |table| then [] else table[offset..Min(offset + limit, |table|)]
  }

  /** `down` holds the offsets at which the database does not answer. The rows are the first
      min(n, maxRows), in order, each once; the answer is complete exactly when the table is
      shorter than the ceiling (a table of exactly that length is reported incomplete); and an
      error is returned exactly when one of the pages needed to find this out is not answered. */
  method AdminPagedRows<T>(table: seq<T>, maxRows: int, down: set<int>) returns (r: Result<Inventory<T>, ReadError>)
    ensures r.Err? <==> exists offset <- down :: 0 <= offset < maxRows && offset <= |table| && offset % BATCH_SIZE == 0
    ensures r.Ok? ==> r.value.rows == table[..Min(|table|, if maxRows > 0 then maxRows else 0)]
    ensures r.Ok? ==> r.value.complete == (|table| < maxRows)
  {
    var rows := [];
    var offset := 0;
    while offset < maxRows
      invariant 0 <= offset && offset % BATCH_SIZE == 0
      invariant offset < maxRows ==> offset <= |table| && rows == table[..offset]
      invariant offset >= maxRows ==> |table| >= maxRows && rows == table[..if maxRows > 0 then maxRows else 0]
      invariant forall o <- down :: !(0 <= o < Min(offset, maxRows) && o % BATCH_SIZE == 0)
      decreases maxRows - offset
    {
      var limit := BATCH_SIZE;
      if maxRows - offset < limit { limit := maxRows - offset; }
      if offset in down { return Err(ReadError); }
      var page := Page(table, offset, limit);
      rows := rows + page;
      if |page| < limit { return Ok(Inventory(rows, true)); }
      offset := offset + BATCH_SIZE;
    }
    return Ok(Inventory(rows, false));
  }
}
