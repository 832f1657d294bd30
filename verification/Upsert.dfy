/**
  Enrichment upserts (textlake/upsert.py): insert a row, or merge it into the stored one so that a
  known value is never overwritten by NULL.
 */
module Upsert {
  import opened Options

  datatype Value = Text(text: string) | Number(number: int)

  /** A row by column; None is NULL. */
  type Record = map<string, Option<Value>>

  const FIRST_SEEN := "first_seen_at"
  const LAST_SEEN := "last_seen_at"
  const RAW_JSON := "raw_json"

  const MB_COMMENT_ENRICHMENT: seq<string> := [
    "post_id", "parent_id", "author_name", "author_id", "content", "created_at_src",
    "upvotes", "downvotes", "raw_json", "first_seen_at", "last_seen_at"]

  const MB_COMMENT_COLUMNS: set<string> := {
    "id", "post_id", "parent_id", "author_name", "author_id", "content", "created_at_src",
    "upvotes", "downvotes", "raw_json", "first_seen_at", "last_seen_at", "ticker"}

  function Get(r: Record, col: string): Option<Value> {
    if col in r then r[col] else None
  }

  function Coalesce(a: Option<Value>, b: Option<Value>): Option<Value> {
    if a.Some? then a else b
  }

  /** The columns the update merges value by value. */
  predicate Enriched(columns: set<string>, enrichment: seq<string>, col: string) {
    col in enrichment && col in columns && col != FIRST_SEEN && col != LAST_SEEN && col != RAW_JSON
  }

  /** One column of the stored row after the update. */
  function MergedColumn(columns: set<string>, enrichment: seq<string>, stored: Record, values: Record, authoritative: bool, now: Value, col: string): Option<Value> {
    if col == LAST_SEEN then Some(now)
    else if col == FIRST_SEEN then Coalesce(Get(stored, col), Some(now))
    else if Enriched(columns, enrichment, col) then Coalesce(Get(values, col), Get(stored, col))
    else if col == RAW_JSON && col in columns then
      if authoritative then Get(values, col) else Coalesce(Get(stored, col), Get(values, col))
    else Get(stored, col)
  }

  function Merged(columns: set<string>, enrichment: seq<string>, stored: Record, values: Record, authoritative: bool, now: Value): Record {
    map col | col in columns + stored.Keys + {FIRST_SEEN, LAST_SEEN} ::
      MergedColumn(columns, enrichment, stored, values, authoritative, now, col)
  }

  /** A fresh row: the given values, and the two time stamps by default. */
  function Inserted(columns: set<string>, values: Record, now: Value): Record {
    map col | col in columns + {FIRST_SEEN, LAST_SEEN} ::
      if col in values then values[col] else if col == FIRST_SEEN || col == LAST_SEEN then Some(now) else None
  }

  /** The row under a key after the statement. */
  function Upserted(columns: set<string>, enrichment: seq<string>, stored: Option<Record>, values: Record, authoritative: bool, now: Value): Record {
    if stored.Some? then Merged(columns, enrichment, stored.value, values, authoritative, now)
    else Inserted(columns, values, now)
  }

  /** Build the update column by column, as the statement's SET list, and apply it. */
  method EnrichmentUpsert(columns: set<string>, enrichment: seq<string>, stored: Option<Record>, values: Record, authoritative: bool, now: Value)
    returns (row: Record)
    ensures row == Upserted(columns, enrichment, stored, values, authoritative, now)
  {
    if stored.None? {
      return Inserted(columns, values, now);
    }
    var was := stored.value;
    var setMap: Record := map[LAST_SEEN := Some(now), FIRST_SEEN := Coalesce(Get(was, FIRST_SEEN), Some(now))];
    var i := 0;
    while i < |enrichment|
      invariant 0 <= i <= |enrichment|
      invariant forall c :: c in setMap <==> c == LAST_SEEN || c == FIRST_SEEN || Enriched(columns, enrichment[..i], c)
      invariant forall c :: c in setMap ==> setMap[c] == MergedColumn(columns, enrichment[..i], was, values, authoritative, now, c)
    {
      var col := enrichment[i];
      assert enrichment[..i + 1] == enrichment[..i] + [col];
      if col != FIRST_SEEN && col != LAST_SEEN && col != RAW_JSON && col in columns {
        setMap := setMap[col := Coalesce(Get(values, col), Get(was, col))];
      }
      i := i + 1;
    }
    assert enrichment[..i] == enrichment;
    if RAW_JSON in columns {
      setMap := setMap[RAW_JSON := if authoritative then Get(values, RAW_JSON) else Coalesce(Get(was, RAW_JSON), Get(values, RAW_JSON))];
    }
    row := map col | col in columns + was.Keys + {FIRST_SEEN, LAST_SEEN} :: if col in setMap then setMap[col] else Get(was, col);
  }

  /** What a known value may become: kept, or replaced by another known value; never NULL unless an authoritative payload drops its raw copy. */
  lemma MergeKeepsKnown(columns: set<string>, enrichment: seq<string>, stored: Record, values: Record, authoritative: bool, now: Value, col: string)
    requires Get(stored, col).Some?
    ensures var after := Get(Merged(columns, enrichment, stored, values, authoritative, now), col);
            after.None? <==> col == RAW_JSON && col in columns && authoritative && Get(values, col).None?
  {
  }

  /** The columns of a comment that a payload fills in: the payload's value if it has one, or else the stored one. */
  lemma CommentColumns(stored: Record, values: Record, authoritative: bool, now: Value, col: string)
    requires col in ["post_id", "parent_id", "author_name", "author_id", "content", "created_at_src", "upvotes", "downvotes"]
    ensures Get(Merged(MB_COMMENT_COLUMNS, MB_COMMENT_ENRICHMENT, stored, values, authoritative, now), col)
            == if Get(values, col).Some? then Get(values, col) else Get(stored, col)
  {
  }

  /**
    The other columns: last seen now, first seen when it was, the raw copy the stored one unless there is none or the
    payload is authoritative; the id and the ticker stay.
   */
  lemma OtherColumns(stored: Record, values: Record, authoritative: bool, now: Value)
    ensures var after := Merged(MB_COMMENT_COLUMNS, MB_COMMENT_ENRICHMENT, stored, values, authoritative, now);
            && Get(after, "last_seen_at") == Some(now)
            && Get(after, "first_seen_at") == (if Get(stored, "first_seen_at").Some? then Get(stored, "first_seen_at") else Some(now))
            && Get(after, "raw_json") == (if authoritative || Get(stored, "raw_json").None? then Get(values, "raw_json") else Get(stored, "raw_json"))
            && Get(after, "id") == Get(stored, "id") && Get(after, "ticker") == Get(stored, "ticker")
  {
  }

  /** A fresh comment holds the payload's values and is first and last seen now. */
  lemma FreshColumns(values: Record, now: Value, col: string)
    requires col in MB_COMMENT_COLUMNS && FIRST_SEEN !in values && LAST_SEEN !in values
    ensures Get(Inserted(MB_COMMENT_COLUMNS, values, now), col)
            == if col == "first_seen_at" || col == "last_seen_at" then Some(now) else Get(values, col)
  {
  }

  /** Two rows differ at most in when they were last seen. */
  ghost predicate SameButSeen(a: Record, b: Record) {
    forall col :: col != LAST_SEEN ==> Get(a, col) == Get(b, col)
  }

  /** Applying the same payload again changes nothing but the last-seen stamp. */
  lemma UpsertTwice(columns: set<string>, enrichment: seq<string>, stored: Option<Record>, values: Record, authoritative: bool, now: Value, later: Value)
    requires FIRST_SEEN !in values && LAST_SEEN !in values && (forall col :: col in values ==> col in columns)
    ensures var once := Upserted(columns, enrichment, stored, values, authoritative, now);
            SameButSeen(Upserted(columns, enrichment, Some(once), values, authoritative, later), once)
  {
  }
}
