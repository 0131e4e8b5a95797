/**
 * The chat-history and context store (`DatabaseManager`): two tables,
 * `contexts` and `chat_messages`, each with an AUTOINCREMENT integer key.
 * A table is a sequence of rows in rowid order; the counters play the part
 * of SQLite's `sqlite_sequence`. Each method is the meaning of one SQL
 * statement; the queries are functions of the tables.
 */
module DbManager {
  import opened Wrappers
  import opened Sql

  /** A point in time as the store keeps it (`datetime`, compared in time order). */
  type Timestamp = int

  /** The thread grouping key; the window derives it from the clock. Opaque here. */
  type ThreadKey = int

  /** A non-NULL value of `chat_messages.context_id`: an integer context id,
      or the empty string the chat window stores when "No Context" is selected
      (SQLite keeps it as TEXT, which never equals an integer). */
  datatype ContextRef = ContextId(id: int) | EmptyText

  /** A `chat_messages` row, or the record a caller hands to `add_message`. */
  datatype ChatMessage = ChatMessage(
    id: Option<int>,
    userMessage: string,
    assistantMessage: string,
    contextId: Option<ContextRef>,
    timestamp: Timestamp,
    threadId: Option<ThreadKey>)

  /** A `contexts` row, or the record a caller hands to `add_context`. */
  datatype Context = Context(
    id: Option<int>,
    name: string,
    content: string,
    createdAt: Timestamp,
    updatedAt: Timestamp)

  datatype DbError =
    | UniqueConstraintFailed  // sqlite3.IntegrityError: the UNIQUE constraint on contexts.name
    | UnexpectedKeyword       // TypeError: ChatMessage() got an unexpected keyword argument

  // ---------------------------------------------------------------------
  // Table invariants
  // ---------------------------------------------------------------------

  /** The `contexts` table: every row has an id in 1..seqNo, ids ascend in
      rowid order, and no two rows share a name (UNIQUE NOT NULL). */
  ghost predicate ContextTable(rows: seq<Context>, seqNo: int)
  {
    && (forall i :: 0 <= i < |rows| ==> rows[i].id.Some? && 0 < rows[i].id.value <= seqNo)
    && (forall i, j :: 0 <= i < j < |rows| ==> rows[i].id.value < rows[j].id.value)
    && (forall i, j :: 0 <= i < j < |rows| ==> rows[i].name != rows[j].name)
  }

  /** The `chat_messages` table: every row has an id in 1..seqNo and ids ascend in rowid order. */
  ghost predicate MessageTable(rows: seq<ChatMessage>, seqNo: int)
  {
    && (forall i :: 0 <= i < |rows| ==> rows[i].id.Some? && 0 < rows[i].id.value <= seqNo)
    && (forall i, j :: 0 <= i < j < |rows| ==> rows[i].id.value < rows[j].id.value)
  }

  predicate NameTaken(rows: seq<Context>, name: string)
  {
    exists i | 0 <= i < |rows| :: rows[i].name == name
  }

  // ---------------------------------------------------------------------
  // WHERE: filtering a table
  // ---------------------------------------------------------------------

  /** The rows that satisfy `p`, in table order. */
  function Filter<T(!new)>(rows: seq<T>, p: T -> bool): (r: seq<T>)
    ensures forall x :: x in r <==> x in rows && p(x)
    ensures multiset(r) <= multiset(rows)
    ensures (forall i :: 0 <= i < |rows| ==> p(rows[i])) ==> r == rows
  {
    if |rows| == 0 then
      []
    else if p(rows[0]) then
      assert rows == [rows[0]] + rows[1..];
      [rows[0]] + Filter(rows[1..], p)
    else
      assert rows == [rows[0]] + rows[1..];
      Filter(rows[1..], p)
  }

  /** `R` holds between every earlier and every later element of `s`. */
  ghost predicate Pairwise<T>(s: seq<T>, R: (T, T) -> bool)
  {
    forall i, j :: 0 <= i < j < |s| ==> R(s[i], s[j])
  }

  /** Filtering keeps the survivors in their relative order. */
  lemma {:induction false} FilterKeepsPairwise<T(!new)>(rows: seq<T>, p: T -> bool, R: (T, T) -> bool)
    requires Pairwise(rows, R)
    ensures Pairwise(Filter(rows, p), R)
    decreases |rows|
  {
    if |rows| > 0 {
      var rest := rows[1..];
      FilterKeepsPairwise(rest, p, R);
      var fr := Filter(rest, p);
      if p(rows[0]) {
        forall j | 0 <= j < |fr| ensures R(rows[0], fr[j]) {
          assert fr[j] in rest;
          var k :| 0 <= k < |rest| && rest[k] == fr[j];
          assert rows[k + 1] == fr[j];
        }
        var r := [rows[0]] + fr;
        forall i, j | 0 <= i < j < |r| ensures R(r[i], r[j]) {
          if i > 0 {
            assert r[i] == fr[i - 1] && r[j] == fr[j - 1];
          }
        }
      }
    }
  }

  /** Filtering concatenated rows filters each part. */
  lemma {:induction false} FilterConcat<T(!new)>(a: seq<T>, b: seq<T>, p: T -> bool)
    ensures Filter(a + b, p) == Filter(a, p) + Filter(b, p)
    decreases |a|
  {
    if |a| == 0 {
      assert a + b == b;
    } else {
      var ab := a + b;
      assert ab[0] == a[0] && ab[1..] == a[1..] + b;
      FilterConcat(a[1..], b, p);
      var x, y := Filter(a[1..], p), Filter(b, p);
      if p(a[0]) {
        assert Filter(ab, p) == [a[0]] + (x + y);
        assert Filter(a, p) == [a[0]] + x;
        assert [a[0]] + (x + y) == ([a[0]] + x) + y;
      } else {
        assert Filter(ab, p) == x + y;
        assert Filter(a, p) == x;
      }
    }
  }

  /** All rows but the one at `k` pass `p`, so filtering removes exactly that row. */
  lemma FilterDropsOne<T(!new)>(rows: seq<T>, p: T -> bool, k: int)
    requires 0 <= k < |rows| && !p(rows[k])
    requires forall i :: 0 <= i < |rows| && i != k ==> p(rows[i])
    ensures Filter(rows, p) == rows[..k] + rows[k + 1..]
  {
    var before, after, x := rows[..k], rows[k + 1..], [rows[k]];
    assert Filter(before, p) == before by {
      forall j | 0 <= j < |before| ensures p(before[j]) {
        assert before[j] == rows[j];
      }
    }
    assert Filter(after, p) == after by {
      forall j | 0 <= j < |after| ensures p(after[j]) {
        assert after[j] == rows[k + 1 + j];
      }
    }
    assert Filter(x + after, p) == after by {
      assert Filter(x, p) == [] by {
        assert x[0] == rows[k] && x[1..] == [];
      }
      FilterConcat(x, after, p);
    }
    assert Filter(before + (x + after), p) == before + after by {
      FilterConcat(before, x + after, p);
    }
    SplitAt(rows, k);
  }

  /** A sequence is its prefix, one element, and its suffix. */
  lemma SplitAt<T>(s: seq<T>, k: int)
    requires 0 <= k < |s|
    ensures s == s[..k] + ([s[k]] + s[k + 1..])
  {
    assert s[k..] == [s[k]] + s[k + 1..];
  }

  /** Deleting rows keeps the contexts table well formed. */
  lemma FilterKeepsContextTable(rows: seq<Context>, p: Context -> bool, seqNo: int)
    requires ContextTable(rows, seqNo)
    ensures ContextTable(Filter(rows, p), seqNo)
  {
    var R := (a: Context, b: Context) => a.id.Some? && b.id.Some? && a.id.value < b.id.value && a.name != b.name;
    assert Pairwise(rows, R);
    FilterKeepsPairwise(rows, p, R);
    var fr := Filter(rows, p);
    forall i | 0 <= i < |fr| ensures fr[i].id.Some? && 0 < fr[i].id.value <= seqNo {
      assert fr[i] in rows;
    }
    assert Pairwise(fr, R);
  }

  /** The `contexts` table after `UPDATE contexts SET content = ?, updated_at = ? WHERE id = ?`. */
  function UpdatedTable(rows: seq<Context>, context: Context): (r: seq<Context>)
    ensures |r| == |rows|
    ensures forall i :: 0 <= i < |rows| ==>
      r[i].id == rows[i].id && r[i].name == rows[i].name && r[i].createdAt == rows[i].createdAt
    ensures forall i :: 0 <= i < |rows| && SqlEquals(rows[i].id, context.id) ==>
      r[i].content == context.content && r[i].updatedAt == context.updatedAt
    ensures forall i :: 0 <= i < |rows| && !SqlEquals(rows[i].id, context.id) ==> r[i] == rows[i]
  {
    seq(|rows|, i requires 0 <= i < |rows| =>
      if SqlEquals(rows[i].id, context.id)
      then rows[i].(content := context.content, updatedAt := context.updatedAt)
      else rows[i])
  }

  /** An update whose id matches no row (in particular a NULL id) changes nothing. */
  lemma UpdateUnknownIdChangesNothing(rows: seq<Context>, context: Context)
    requires forall i :: 0 <= i < |rows| ==> !SqlEquals(rows[i].id, context.id)
    ensures UpdatedTable(rows, context) == rows
  {
  }

  /** An update keeps the contexts table well formed: it touches neither ids nor names. */
  lemma UpdateKeepsContextTable(rows: seq<Context>, context: Context, seqNo: int)
    requires ContextTable(rows, seqNo)
    ensures ContextTable(UpdatedTable(rows, context), seqNo)
  {
  }

  /** The rows `DELETE ... WHERE id = ?` keeps: those whose id is not equal to the parameter. */
  function KeptByDelete(id: Option<int>): Context -> bool
  {
    (c: Context) => !SqlEquals(c.id, id)
  }

  /** The `contexts` table after `DELETE FROM contexts WHERE id = ?`. */
  function DeletedTable(rows: seq<Context>, id: Option<int>): (r: seq<Context>)
    ensures forall c :: c in r <==> c in rows && !SqlEquals(c.id, id)
    ensures (forall i :: 0 <= i < |rows| ==> !SqlEquals(rows[i].id, id)) ==> r == rows
  {
    Filter(rows, KeptByDelete(id))
  }

  /** In a well-formed table, deleting the id of row `k` removes that row and
      no other, and leaves the table well formed. */
  lemma DeleteRemovesExactlyOne(rows: seq<Context>, seqNo: int, k: int)
    requires ContextTable(rows, seqNo) && 0 <= k < |rows|
    ensures DeletedTable(rows, rows[k].id) == rows[..k] + rows[k + 1..]
    ensures ContextTable(DeletedTable(rows, rows[k].id), seqNo)
  {
    var p := KeptByDelete(rows[k].id);
    forall i | 0 <= i < |rows| && i != k ensures p(rows[i]) {
      if i < k {
        assert rows[i].id.value < rows[k].id.value;
      } else {
        assert rows[k].id.value < rows[i].id.value;
      }
    }
    FilterDropsOne(rows, p, k);
    FilterKeepsContextTable(rows, p, seqNo);
  }

  /** `thread_id = COALESCE(?, thread_id) AND context_id = COALESCE(?, context_id)`. */
  predicate MessageMatches(m: ChatMessage, threadId: Option<ThreadKey>, contextId: Option<ContextRef>)
  {
    CoalesceFilter(threadId, m.threadId) && CoalesceFilter(contextId, m.contextId)
  }

  /** `m.user_message LIKE '%query%'`. Only the user's text is consulted. */
  predicate SearchMatches(userMessage: string, query: string)
  {
    Like(SurroundPattern(query), userMessage)
  }

  // ---------------------------------------------------------------------
  // ORDER BY
  // ---------------------------------------------------------------------

  predicate TimeAscending(rows: seq<ChatMessage>)
  {
    forall i, j :: 0 <= i < j < |rows| ==> rows[i].timestamp <= rows[j].timestamp
  }

  predicate TimeDescending(rows: seq<ChatMessage>)
  {
    forall i, j :: 0 <= i < j < |rows| ==> rows[i].timestamp >= rows[j].timestamp
  }

  predicate NameAscending(rows: seq<Context>)
  {
    forall i, j :: 0 <= i < j < |rows| ==> TextAtMost(rows[i].name, rows[j].name)
  }

  lemma PrependAscending(x: ChatMessage, s: seq<ChatMessage>)
    requires TimeAscending(s)
    requires forall j :: 0 <= j < |s| ==> x.timestamp <= s[j].timestamp
    ensures TimeAscending([x] + s)
  {
    var r := [x] + s;
    forall i, j | 0 <= i < j < |r| ensures r[i].timestamp <= r[j].timestamp {
      assert r[j] == s[j - 1];
      if i > 0 {
        assert r[i] == s[i - 1];
      }
    }
  }

  /** A bound that holds for every row of `u` and for `m` holds for every row of `t`. */
  lemma TimeBoundByParts(t: seq<ChatMessage>, u: seq<ChatMessage>, m: ChatMessage, b: Timestamp)
    requires multiset(t) == multiset(u) + multiset{m}
    requires b <= m.timestamp && forall j :: 0 <= j < |u| ==> b <= u[j].timestamp
    ensures forall j :: 0 <= j < |t| ==> b <= t[j].timestamp
  {
    forall j | 0 <= j < |t| ensures b <= t[j].timestamp {
      assert t[j] in multiset(t);
      if t[j] != m {
        assert t[j] in multiset(u);
      }
    }
  }

  function InsertByTime(m: ChatMessage, sorted: seq<ChatMessage>): (r: seq<ChatMessage>)
    requires TimeAscending(sorted)
    ensures TimeAscending(r)
    ensures multiset(r) == multiset(sorted) + multiset{m}
  {
    if |sorted| == 0 then
      [m]
    else if m.timestamp <= sorted[0].timestamp then
      PrependAscending(m, sorted);
      [m] + sorted
    else
      var rest := sorted[1..];
      var tail := InsertByTime(m, rest);
      assert forall j :: 0 <= j < |rest| ==> rest[j] == sorted[j + 1];
      TimeBoundByParts(tail, rest, m, sorted[0].timestamp);
      PrependAscending(sorted[0], tail);
      assert sorted == [sorted[0]] + rest;
      [sorted[0]] + tail
  }

  /** `ORDER BY timestamp ASC`. Rows with equal timestamps keep rowid order
      (SQLite leaves their order open; the model fixes this one). */
  function SortByTime(rows: seq<ChatMessage>): (r: seq<ChatMessage>)
    ensures TimeAscending(r)
    ensures multiset(r) == multiset(rows)
  {
    if |rows| == 0 then
      []
    else
      assert rows == [rows[0]] + rows[1..];
      InsertByTime(rows[0], SortByTime(rows[1..]))
  }

  function Reverse<T>(s: seq<T>): (r: seq<T>)
    ensures |r| == |s|
    ensures forall k :: 0 <= k < |s| ==> r[k] == s[|s| - 1 - k]
  {
    if |s| == 0 then [] else Reverse(s[1..]) + [s[0]]
  }

  lemma {:induction false} ReverseKeepsMultiset<T>(s: seq<T>)
    ensures multiset(Reverse(s)) == multiset(s)
    decreases |s|
  {
    if |s| > 0 {
      ReverseKeepsMultiset(s[1..]);
      assert s == [s[0]] + s[1..];
    }
  }

  /** `ORDER BY timestamp DESC`: the ascending order read backwards, which is
      how SQLite walks the timestamp index for a descending scan. */
  function SortByTimeDescending(rows: seq<ChatMessage>): (r: seq<ChatMessage>)
    ensures TimeDescending(r)
    ensures multiset(r) == multiset(rows)
  {
    var asc := SortByTime(rows);
    ReverseKeepsMultiset(asc);
    Reverse(asc)
  }

  lemma PrependNameAscending(x: Context, s: seq<Context>)
    requires NameAscending(s)
    requires forall j :: 0 <= j < |s| ==> TextAtMost(x.name, s[j].name)
    ensures NameAscending([x] + s)
  {
    var r := [x] + s;
    forall i, j | 0 <= i < j < |r| ensures TextAtMost(r[i].name, r[j].name) {
      assert r[j] == s[j - 1];
      if i > 0 {
        assert r[i] == s[i - 1];
      }
    }
  }

  /** A lower name bound that holds for every row of `u` and for `c` holds for every row of `t`. */
  lemma NameBoundByParts(t: seq<Context>, u: seq<Context>, c: Context, b: string)
    requires multiset(t) == multiset(u) + multiset{c}
    requires TextAtMost(b, c.name) && forall j :: 0 <= j < |u| ==> TextAtMost(b, u[j].name)
    ensures forall j :: 0 <= j < |t| ==> TextAtMost(b, t[j].name)
  {
    forall j | 0 <= j < |t| ensures TextAtMost(b, t[j].name) {
      assert t[j] in multiset(t);
      if t[j] != c {
        assert t[j] in multiset(u);
      }
    }
  }

  function InsertByName(c: Context, sorted: seq<Context>): (r: seq<Context>)
    requires NameAscending(sorted)
    ensures NameAscending(r)
    ensures multiset(r) == multiset(sorted) + multiset{c}
  {
    if |sorted| == 0 then
      [c]
    else if TextAtMost(c.name, sorted[0].name) then
      forall k | 0 <= k < |sorted|
        ensures TextAtMost(c.name, sorted[k].name)
      {
        if k > 0 {
          TextAtMostTransitive(c.name, sorted[0].name, sorted[k].name);
        }
      }
      PrependNameAscending(c, sorted);
      [c] + sorted
    else
      TextAtMostTotal(c.name, sorted[0].name);
      var rest := sorted[1..];
      var tail := InsertByName(c, rest);
      assert forall j :: 0 <= j < |rest| ==> rest[j] == sorted[j + 1];
      NameBoundByParts(tail, rest, c, sorted[0].name);
      PrependNameAscending(sorted[0], tail);
      assert sorted == [sorted[0]] + rest;
      [sorted[0]] + tail
  }

  /** `ORDER BY name` under the BINARY collation. */
  function SortByName(rows: seq<Context>): (r: seq<Context>)
    ensures NameAscending(r)
    ensures multiset(r) == multiset(rows)
  {
    if |rows| == 0 then
      []
    else
      assert rows == [rows[0]] + rows[1..];
      InsertByName(rows[0], SortByName(rows[1..]))
  }

  /** What WHERE, then ORDER BY, then LIMIT guarantee together: the result
      holds only rows of the table that pass the filter, in the requested
      order, and no passing row left out comes before a row kept; when the
      limit is not reached, every passing row is there. */
  lemma SelectOrderLimit(rows: seq<ChatMessage>, p: ChatMessage -> bool, sorted: seq<ChatMessage>,
                         limit: int, asc: bool)
    requires multiset(sorted) == multiset(Filter(rows, p))
    requires if asc then TimeAscending(sorted) else TimeDescending(sorted)
    ensures var r := Limit(sorted, limit);
      && (forall i :: 0 <= i < |r| ==> r[i] in rows && p(r[i]))
      && multiset(r) <= multiset(rows)
      && (forall m, i :: m in rows && p(m) && m !in r && 0 <= i < |r| ==>
            if asc then r[i].timestamp <= m.timestamp else r[i].timestamp >= m.timestamp)
      && (limit < 0 || |r| < limit ==> forall m :: m in rows && p(m) ==> m in r)
  {
    var r := Limit(sorted, limit);
    var matching := Filter(rows, p);
    assert forall x :: x in sorted <==> x in rows && p(x) by {
      assert forall x :: x in sorted <==> x in multiset(matching);
    }
    assert sorted == r + sorted[|r|..];
    forall m, i | m in rows && p(m) && m !in r && 0 <= i < |r|
      ensures if asc then r[i].timestamp <= m.timestamp else r[i].timestamp >= m.timestamp
    {
      LeftOutComesLater(sorted, r, m, i, asc);
    }
  }

  /** In a sorted sequence, an element outside a prefix is ordered after every element of the prefix. */
  lemma LeftOutComesLater(sorted: seq<ChatMessage>, r: seq<ChatMessage>, m: ChatMessage, i: int, asc: bool)
    requires if asc then TimeAscending(sorted) else TimeDescending(sorted)
    requires r <= sorted && m in sorted && m !in r && 0 <= i < |r|
    ensures if asc then r[i].timestamp <= m.timestamp else r[i].timestamp >= m.timestamp
  {
    var k :| 0 <= k < |sorted| && sorted[k] == m;
    assert r[i] == sorted[i];
  }

  // ---------------------------------------------------------------------
  // The store
  // ---------------------------------------------------------------------

  class DatabaseManager {
    /** The `contexts` table, in rowid order. */
    var contexts: seq<Context>
    /** The `chat_messages` table, in rowid order. */
    var messages: seq<ChatMessage>
    /** The largest id ever assigned in each table (AUTOINCREMENT never reuses one). */
    var contextsSeq: nat
    var messagesSeq: nat

    ghost predicate Valid()
      reads this
    {
      ContextTable(contexts, contextsSeq) && MessageTable(messages, messagesSeq)
    }

    /** Opening a new database file: `_initialize_db` creates both tables empty. */
    constructor ()
      ensures Valid()
      ensures contexts == [] && messages == []
    {
      contexts, messages := [], [];
      contextsSeq, messagesSeq := 0, 0;
    }

    /** `INSERT INTO chat_messages`: every field but `id` is stored as given;
        the new row gets a fresh id, which is returned (`lastrowid`). */
    method AddMessage(message: ChatMessage) returns (id: int)
      requires Valid()
      modifies this
      ensures Valid()
      ensures forall i :: 0 <= i < |old(messages)| ==> old(messages)[i].id != Some(id)
      ensures messages == old(messages) + [message.(id := Some(id))]
      ensures contexts == old(contexts) && contextsSeq == old(contextsSeq)
    {
      id := messagesSeq + 1;
      messagesSeq := id;
      messages := messages + [message.(id := Some(id))];
    }

    /** `INSERT INTO contexts`: fails on a duplicate name, leaving both tables
        as they were; otherwise stores name, content and both timestamps as
        given under a fresh id, which is returned. */
    method AddContext(context: Context) returns (r: Result<int, DbError>)
      requires Valid()
      modifies this
      ensures Valid()
      ensures r.Err? <==> NameTaken(old(contexts), context.name)
      ensures r.Err? ==> r.error == UniqueConstraintFailed && contexts == old(contexts) && contextsSeq == old(contextsSeq)
      ensures r.Ok? ==> forall i :: 0 <= i < |old(contexts)| ==> old(contexts)[i].id != Some(r.value)
      ensures r.Ok? ==> contexts == old(contexts) + [context.(id := Some(r.value))]
      ensures messages == old(messages) && messagesSeq == old(messagesSeq)
    {
      if NameTaken(contexts, context.name) {
        return Err(UniqueConstraintFailed);
      }
      var id := contextsSeq + 1;
      contextsSeq := id;
      contexts := contexts + [context.(id := Some(id))];
      r := Ok(id);
    }

    /** `UPDATE contexts SET content = ?, updated_at = ? WHERE id = ?`: the
        row whose id equals `context.id` takes the new content and update
        time; nothing else changes, and an unknown (or NULL) id changes nothing. */
    method UpdateContext(context: Context)
      requires Valid()
      modifies this
      ensures Valid()
      ensures contexts == UpdatedTable(old(contexts), context)
      ensures contextsSeq == old(contextsSeq)
      ensures messages == old(messages) && messagesSeq == old(messagesSeq)
    {
      UpdateKeepsContextTable(contexts, context, contextsSeq);
      contexts := UpdatedTable(contexts, context);
    }

    /** `DELETE FROM contexts WHERE id = ?`: exactly the row with that id
        goes (none if absent or NULL); messages that refer to it stay. */
    method DeleteContext(contextId: Option<int>)
      requires Valid()
      modifies this
      ensures Valid()
      ensures contexts == DeletedTable(old(contexts), contextId)
      ensures contextsSeq == old(contextsSeq)
      ensures messages == old(messages) && messagesSeq == old(messagesSeq)
    {
      FilterKeepsContextTable(contexts, KeptByDelete(contextId), contextsSeq);
      contexts := DeletedTable(contexts, contextId);
    }

    /** `SELECT * FROM contexts ORDER BY name`: every stored context exactly
        once, by name ascending. */
    function GetContexts(): (r: seq<Context>)
      reads this
      ensures multiset(r) == multiset(contexts)
      ensures NameAscending(r)
    {
      SortByName(contexts)
    }

    /** `get_messages`: the rows passing both COALESCE filters, oldest first,
        at most `limit` of them (no bound when negative), and the earliest ones. */
    function GetMessages(threadId: Option<ThreadKey> := None, contextId: Option<ContextRef> := None,
                         limit: int := 100): (r: seq<ChatMessage>)
      reads this
      ensures forall i :: 0 <= i < |r| ==> r[i] in messages && MessageMatches(r[i], threadId, contextId)
      ensures multiset(r) <= multiset(messages)
      ensures TimeAscending(r)
      ensures limit >= 0 ==> |r| <= limit
      ensures forall m, i :: m in messages && MessageMatches(m, threadId, contextId) && m !in r && 0 <= i < |r| ==>
        r[i].timestamp <= m.timestamp
      ensures limit < 0 || |r| < limit ==>
        forall m :: m in messages && MessageMatches(m, threadId, contextId) ==> m in r
    {
      var p := (m: ChatMessage) => MessageMatches(m, threadId, contextId);
      var sorted := SortByTime(Filter(messages, p));
      SelectOrderLimit(messages, p, sorted, limit, true);
      Limit(sorted, limit)
    }

    /** `search_messages` as corrected: the rows whose `user_message` is
        LIKE `%query%`, newest first, at most `limit` of them, and the newest ones. */
    function SearchMessages(query: string, limit: int := 50): (r: seq<ChatMessage>)
      reads this
      ensures forall i :: 0 <= i < |r| ==> r[i] in messages && SearchMatches(r[i].userMessage, query)
      ensures multiset(r) <= multiset(messages)
      ensures TimeDescending(r)
      ensures limit >= 0 ==> |r| <= limit
      ensures forall m, i :: m in messages && SearchMatches(m.userMessage, query) && m !in r && 0 <= i < |r| ==>
        r[i].timestamp >= m.timestamp
      ensures limit < 0 || |r| < limit ==>
        forall m :: m in messages && SearchMatches(m.userMessage, query) ==> m in r
    {
      var p := (m: ChatMessage) => SearchMatches(m.userMessage, query);
      var sorted := SortByTimeDescending(Filter(messages, p));
      SelectOrderLimit(messages, p, sorted, limit, false);
      Limit(sorted, limit)
    }

    /** `search_messages` as written: the SELECT adds a `context_name` column,
        and `ChatMessage(**dict(row))` rejects it, so every search that
        returns at least one row raises instead. */
    function SearchMessagesAsWritten(query: string, limit: int := 50): (r: Result<seq<ChatMessage>, DbError>)
      reads this
      ensures r.Err? <==> limit != 0 && exists m :: m in messages && SearchMatches(m.userMessage, query)
      ensures r.Err? ==> r.error == UnexpectedKeyword
      ensures r.Ok? ==> r.value == []
    {
      var rows := SearchMessages(query, limit);
      if |rows| == 0 then Ok([]) else Err(UnexpectedKeyword)
    }
  }

  /** The search pattern `%ell%` matches "hello". */
  lemma EllMatchesHello()
    ensures SearchMatches("hello", "ell")
  {
    assert OccursAt("hello", "ell", 1) by {
      assert "hello"[1..4] == "ell";
    }
    SurroundPatternMeaning("ell", "hello");
  }

  /** A store holding one message "hello": the search for "ell" finds it,
      and the search as written raises on that very row. */
  lemma SearchAsWrittenRaisesOnAHit(db: DatabaseManager, m: ChatMessage)
    requires db.messages == [m] && m.userMessage == "hello"
    ensures db.SearchMessages("ell") == [m]
    ensures db.SearchMessagesAsWritten("ell") == Err(UnexpectedKeyword)
  {
    EllMatchesHello();
    var r := db.SearchMessages("ell");
    assert m in r;
    assert r == [m];
  }
}
