/**
  The request_cache table: first write wins per key, rows are read only until they expire, and an
  empty response body is stored as NULL.
 */
module RequestCache {
  import opened Common

  const DEFAULT_CONTENT_TYPE := "application/json"

  /** A row as stored; response None is SQL NULL. */
  datatype Stored = Stored(response: Option<Bytes>, statusCode: int, contentType: string, createdAt: int, expiresAt: int)

  function Encode(p: Payload, createdAt: int, expiresAt: int): Stored {
    Stored(
      if p.response == [] then None else Some(p.response),
      p.statusCode,
      if p.contentType == "" then DEFAULT_CONTENT_TYPE else p.contentType,
      createdAt, expiresAt)
  }

  /** Scanning a row: NULL becomes an empty body. */
  function Decode(st: Stored): Row {
    Row(
      Payload(match st.response case None => [] case Some(b) => b, st.statusCode, st.contentType),
      st.createdAt, st.expiresAt)
  }

  /**
    What was stored is what is read, for every payload that names its content type; one that does not is read as JSON,
    and an empty body is NULL in between.
   */
  lemma EncodeDecode(p: Payload, createdAt: int, expiresAt: int)
    ensures Encode(p, createdAt, expiresAt).response == None <==> p.response == []
    ensures p.contentType == "" ==>
              Decode(Encode(p, createdAt, expiresAt)) == Row(p.(contentType := "application/json"), createdAt, expiresAt)
    ensures Decode(Encode(p, createdAt, expiresAt)) == Row(p, createdAt, expiresAt) <==> p.contentType != ""
  {
    assert DEFAULT_CONTENT_TYPE != "";
  }

  /** The payload with the content type a row always has. */
  function Named(p: Payload): Payload {
    if p.contentType == "" then p.(contentType := DEFAULT_CONTENT_TYPE) else p
  }

  function DecodeAll(rows: map<CacheKey, Stored>): map<CacheKey, Row> {
    map k | k in rows :: Decode(rows[k])
  }

  class Repository {
    var rows: map<CacheKey, Stored>

    /** The table as the protocol sees it. */
    ghost function Table(): map<CacheKey, Row>
      reads this
    {
      DecodeAll(rows)
    }

    constructor ()
      ensures Table() == map[]
    {
      rows := map[];
    }

    /** None is the not-found error: no row, or only an expired one. */
    method Get(key: CacheKey, now: int) returns (row: Option<Row>)
      ensures row == if key in Table() && now < Table()[key].expiresAt then Some(Table()[key]) else None
    {
      if key in rows && rows[key].expiresAt > now {
        row := Some(Decode(rows[key]));
      } else {
        row := None;
      }
    }

    method Create(key: CacheKey, p: Payload, now: int, expiresAt: int)
      modifies this
      ensures Table() == if key in old(Table()) then old(Table()) else old(Table())[key := Row(Named(p), now, expiresAt)]
    {
      EncodeDecode(Named(p), now, expiresAt);
      if key !in rows {
        rows := rows[key := Encode(p, now, expiresAt)];
        assert Table() == old(Table())[key := Decode(Encode(p, now, expiresAt))];
      }
    }

    method DeleteExpired(now: int)
      modifies this
      ensures Table() == map k | k in old(Table()) && old(Table())[k].expiresAt >= now :: old(Table())[k]
    {
      rows := map k | k in rows && rows[k].expiresAt >= now :: rows[k];
    }
  }
}
