/** The parameterised SQL text the data layer builds: which fields a
    statement names, how its `$n` placeholders are numbered, and which
    values are bound to them. Executing the statements is not modelled. */
module QueryBuilder {
  import opened Values
  import opened Text

  /** A dict's items in insertion order. */
  type Fields = seq<(string, Value)>

  function Keys(d: Fields): seq<string> {
    seq(|d|, i requires 0 <= i < |d| => d[i].0)
  }

  function ValuesOf(d: Fields): seq<Value> {
    seq(|d|, i requires 0 <= i < |d| => d[i].1)
  }

  /** The per-key filter of the builders: with `skipAtime` the key 'atime'
      is skipped, a non-empty allow-list must name the key, and the
      deny-list must not. An empty list filters nothing, as None does. */
  predicate Admits(key: string, allow: seq<string>, deny: seq<string>, skipAtime: bool) {
    !(skipAtime && key == "atime") && (|allow| == 0 || key in allow) && key !in deny
  }

  /** The items that pass the filter, in data order. */
  function Kept(d: Fields, allow: seq<string>, deny: seq<string>, skipAtime: bool): Fields
    decreases |d|
  {
    if d == [] then []
    else Kept(d[..|d| - 1], allow, deny, skipAtime)
         + (if Admits(d[|d| - 1].0, allow, deny, skipAtime) then [d[|d| - 1]] else [])
  }

  /** An item is kept exactly when it is in the data and passes the filter. */
  lemma {:induction false} KeptIsFilter(d: Fields, allow: seq<string>, deny: seq<string>, skipAtime: bool)
    ensures |Kept(d, allow, deny, skipAtime)| <= |d|
    ensures forall p :: p in Kept(d, allow, deny, skipAtime) <==> p in d && Admits(p.0, allow, deny, skipAtime)
    decreases |d|
  {
    if d != [] {
      var init := d[..|d| - 1];
      KeptIsFilter(init, allow, deny, skipAtime);
      assert d == init + [d[|d| - 1]];
    }
  }

  /** Filtering commutes with concatenation, so kept items keep their order. */
  lemma {:induction false} KeptOfConcat(a: Fields, b: Fields, allow: seq<string>, deny: seq<string>, skipAtime: bool)
    ensures Kept(a + b, allow, deny, skipAtime) == Kept(a, allow, deny, skipAtime) + Kept(b, allow, deny, skipAtime)
    decreases |b|
  {
    if b == [] {
      assert a + b == a;
    } else {
      var binit := b[..|b| - 1];
      assert (a + b)[..|a + b| - 1] == a + binit;
      KeptOfConcat(a, binit, allow, deny, skipAtime);
    }
  }

  /** The placeholder `$i`. */
  function Placeholder(i: nat): string {
    "$" + NatToString(i)
  }

  /** `$first`, `$first+1`, … : n consecutive placeholders. */
  function Placeholders(first: nat, n: nat): seq<string> {
    seq(n, j requires 0 <= j < n => Placeholder(first + j))
  }

  /** `key = $i` for each item, numbered consecutively from `first`. */
  function Assignments(d: Fields, first: nat): seq<string> {
    seq(|d|, j requires 0 <= j < |d| => d[j].0 + " = " + Placeholder(first + j))
  }

  /** Distinct numbers give distinct placeholders. */
  lemma PlaceholdersDistinct(i: nat, j: nat)
    requires i != j
    ensures Placeholder(i) != Placeholder(j)
  {
    if Placeholder(i) == Placeholder(j) {
      assert NatToString(i) == Placeholder(i)[1..];
      assert NatToString(j) == Placeholder(j)[1..];
      NatToStringInjective(i, j);
    }
  }

  /** `', '.join(fields) if fields else '*'`. */
  function FieldList(fields: seq<string>): string {
    if |fields| == 0 then "*" else Join(fields, ", ")
  }

  const ATIME_CLAUSE: string := "atime = (now() at time zone 'utc')"
  const DTIME_CLAUSE: string := ",dtime = (now() at time zone 'utc')"

  /** `create`: the INSERT statement and the values bound to `$1..$n`. */
  method Create(table: string, data: Fields, insertFields: seq<string>, ignoreFields: seq<string>, fields: seq<string>)
    returns (query: string, values: seq<Value>)
    ensures var kept := Kept(data, insertFields, ignoreFields, false);
      values == ValuesOf(kept)
      && query == "INSERT INTO " + table + " (" + Join(Keys(kept), ", ") + ") VALUES ("
                  + Join(Placeholders(1, |kept|), ", ") + ") RETURNING " + FieldList(fields)
  {
    var fieldNames: seq<string> := [];
    var placeholders: seq<string> := [];
    values := [];
    var idx := 1;
    for i := 0 to |data|
      invariant var kept := Kept(data[..i], insertFields, ignoreFields, false);
        fieldNames == Keys(kept) && placeholders == Placeholders(1, |kept|)
        && values == ValuesOf(kept) && idx == |kept| + 1
    {
      assert data[..i + 1][..i] == data[..i];
      var key := data[i].0;
      if |insertFields| > 0 && key !in insertFields {
        continue;
      }
      if |ignoreFields| > 0 && key in ignoreFields {
        continue;
      }
      fieldNames := fieldNames + [key];
      placeholders := placeholders + [Placeholder(idx)];
      values := values + [data[i].1];
      idx := idx + 1;
    }
    assert data[..|data|] == data;
    query := "INSERT INTO " + table + " (" + Join(fieldNames, ", ") + ") VALUES ("
             + Join(placeholders, ", ") + ") RETURNING " + FieldList(fields);
  }

  /** The SET list shared by `update` and `update_by_where`: `key = $i` for
      each kept item numbered from `first`, then the atime clause. */
  method SetClauses(data: Fields, first: nat, updateFields: seq<string>, ignoreFields: seq<string>, withAtime: bool)
    returns (clauses: seq<string>, bound: seq<Value>)
    ensures var kept := Kept(data, updateFields, ignoreFields, withAtime);
      bound == ValuesOf(kept)
      && clauses == Assignments(kept, first) + (if withAtime then [ATIME_CLAUSE] else [])
  {
    clauses := [];
    bound := [];
    var idx := first;
    for i := 0 to |data|
      invariant var kept := Kept(data[..i], updateFields, ignoreFields, withAtime);
        clauses == Assignments(kept, first) && bound == ValuesOf(kept) && idx == first + |kept|
    {
      assert data[..i + 1][..i] == data[..i];
      var key := data[i].0;
      if withAtime && key == "atime" {
        continue;
      }
      if |updateFields| > 0 && key !in updateFields {
        continue;
      }
      if |ignoreFields| > 0 && key in ignoreFields {
        continue;
      }
      clauses := clauses + [key + " = " + Placeholder(idx)];
      bound := bound + [data[i].1];
      idx := idx + 1;
    }
    assert data[..|data|] == data;
    if withAtime {
      clauses := clauses + [ATIME_CLAUSE];
    }
  }

  /** `update`: the primary key is bound last, at the placeholder right
      after the SET placeholders. */
  method Update(table: string, pk: int, data: Fields, updateFields: seq<string>, ignoreFields: seq<string>,
                fields: seq<string>, withAtime: bool)
    returns (query: string, values: seq<Value>)
    ensures var kept := Kept(data, updateFields, ignoreFields, withAtime);
      values == ValuesOf(kept) + [Int(pk)]
      && query == "UPDATE " + table + " SET "
                  + Join(Assignments(kept, 1) + (if withAtime then [ATIME_CLAUSE] else []), ", ")
                  + " WHERE id = " + Placeholder(|values|) + " RETURNING " + FieldList(fields)
  {
    var clauses, bound := SetClauses(data, 1, updateFields, ignoreFields, withAtime);
    values := bound + [Int(pk)];
    query := "UPDATE " + table + " SET " + Join(clauses, ", ")
             + " WHERE id = " + Placeholder(|values|) + " RETURNING " + FieldList(fields);
  }

  /** In `update` the key's placeholder is none of the SET placeholders, and
      it numbers the last bound value. */
  lemma UpdateKeyPlaceholderIsLast(kept: Fields, pk: int)
    ensures var values := ValuesOf(kept) + [Int(pk)];
      values[|values| - 1] == Int(pk)
      && forall j :: 0 <= j < |kept| ==> Assignments(kept, 1)[j] != kept[j].0 + " = " + Placeholder(|values|)
  {
    forall j | 0 <= j < |kept|
      ensures Assignments(kept, 1)[j] != kept[j].0 + " = " + Placeholder(|kept| + 1)
    {
      PlaceholdersDistinct(1 + j, |kept| + 1);
      var pre := kept[j].0 + " = ";
      assert (pre + Placeholder(1 + j))[|pre|..] == Placeholder(1 + j);
      assert (pre + Placeholder(|kept| + 1))[|pre|..] == Placeholder(|kept| + 1);
    }
  }

  /** `update_by_where` with the caller's list left alone: SET placeholders
      continue after the caller's values, and the statement binds the
      caller's values followed by the kept ones. */
  method UpdateByWhereFresh(table: string, data: Fields, where: string, values: seq<Value>,
                            updateFields: seq<string>, ignoreFields: seq<string>, fields: seq<string>, withAtime: bool)
    returns (query: string, args: seq<Value>)
    ensures var kept := Kept(data, updateFields, ignoreFields, withAtime);
      args == values + ValuesOf(kept)
      && query == "UPDATE " + table + " SET "
                  + Join(Assignments(kept, |values| + 1) + (if withAtime then [ATIME_CLAUSE] else []), ", ")
                  + " WHERE " + where + " RETURNING " + FieldList(fields)
  {
    var clauses, bound := SetClauses(data, |values| + 1, updateFields, ignoreFields, withAtime);
    args := values + bound;
    query := "UPDATE " + table + " SET " + Join(clauses, ", ") + " WHERE " + where + " RETURNING " + FieldList(fields);
  }

  /** With no filter, a single item is kept. */
  lemma KeptUnfiltered(p: (string, Value))
    ensures Kept([p], [], [], false) == [p]
    ensures ValuesOf(Kept([p], [], [], false)) == [p.1]
  {
    assert [p][..0] == [];
  }

  /** The SET list of a single item numbered `n`. */
  lemma SingleAssignment(key: string, v: Value, n: nat)
    ensures Join(Assignments([(key, v)], n) + [], ", ") == key + " = " + Placeholder(n)
  {
    assert Assignments([(key, v)], n) + [] == [key + " = " + Placeholder(n)];
  }

  /** The `update_by_where` text for table `posts` under `id = 1` with a
      single SET item numbered `n` and every field returned. */
  lemma OneItemUpdateText(key: string, v: Value, n: nat)
    ensures "UPDATE " + "posts" + " SET " + Join(Assignments([(key, v)], n) + [], ", ") + " WHERE " + "id = 1"
            + " RETURNING " + FieldList([])
            == "UPDATE posts SET " + (key + " = " + Placeholder(n)) + " WHERE id = 1 RETURNING *"
  {
    SingleAssignment(key, v, n);
    assert "UPDATE " + "posts" + " SET " == "UPDATE posts SET ";
  }

  /** A Python list passed by reference. */
  class ValueList {
    var items: seq<Value>

    constructor ()
      ensures items == []
    {
      items := [];
    }
  }

  /** `update_by_where` as written: it extends the caller's list in place,
      and a call that omits `values` extends the one default list that every
      such call shares. */
  method UpdateByWhere(table: string, data: Fields, where: string, values: ValueList,
                       updateFields: seq<string>, ignoreFields: seq<string>, fields: seq<string>, withAtime: bool)
    returns (query: string)
    modifies values
    ensures var kept := Kept(data, updateFields, ignoreFields, withAtime);
      values.items == old(values.items) + ValuesOf(kept)
      && query == "UPDATE " + table + " SET "
                  + Join(Assignments(kept, |old(values.items)| + 1) + (if withAtime then [ATIME_CLAUSE] else []), ", ")
                  + " WHERE " + where + " RETURNING " + FieldList(fields)
  {
    var args;
    query, args := UpdateByWhereFresh(table, data, where, values.items, updateFields, ignoreFields, fields, withAtime);
    values.items := args;
  }

  /** Two calls that both omit `values`: the second numbers its only SET
      placeholder `$2` and binds the first call's value as well. */
  method SharedDefaultLeak() returns (query: string, args: seq<Value>)
    ensures query == "UPDATE posts SET " + "body = $2" + " WHERE id = 1 RETURNING *"
    ensures args == [Str("a"), Str("b")]
  {
    var shared := new ValueList();
    KeptUnfiltered(("title", Str("a")));
    KeptUnfiltered(("body", Str("b")));
    var first := UpdateByWhere("posts", [("title", Str("a"))], "id = 1", shared, [], [], [], false);
    assert shared.items == [Str("a")];
    query := UpdateByWhere("posts", [("body", Str("b"))], "id = 1", shared, [], [], [], false);
    args := shared.items;
    assert query == "UPDATE " + "posts" + " SET " + Join(Assignments([("body", Str("b"))], 2) + [], ", ")
                    + " WHERE " + "id = 1" + " RETURNING " + FieldList([]);
    OneItemUpdateText("body", Str("b"), 2);
    assert "body" + " = " + Placeholder(2) == "body = $2" by {
      assert Placeholder(2) == "$2";
    }
  }

  /** The second of those calls given a fresh empty list: whatever calls came
      before, it binds only its own value, at `$1`. */
  method FreshDefaultNoLeak() returns (query: string, args: seq<Value>)
    ensures query == "UPDATE posts SET " + "body = $1" + " WHERE id = 1 RETURNING *"
    ensures args == [Str("b")]
  {
    query, args := UpdateByWhereFresh("posts", [("body", Str("b"))], "id = 1", [], [], [], [], false);
    KeptUnfiltered(("body", Str("b")));
    OneItemUpdateText("body", Str("b"), 1);
    assert "body" + " = " + Placeholder(1) == "body = $1" by {
      assert Placeholder(1) == "$1";
    }
  }

  /** The WHERE list of `disable_by_where` and `delete_by_where`: `id = $1`,
      then `k = $2`, `k = $3`, … for the data items; the key is bound first. */
  method IdWheres(pk: int, data: Fields) returns (wheres: seq<string>, values: seq<Value>)
    ensures wheres == ["id = $1"] + Assignments(data, 2)
    ensures values == [Int(pk)] + ValuesOf(data)
  {
    values := [Int(pk)];
    wheres := ["id = $1"];
    var idx := 2;
    for i := 0 to |data|
      invariant wheres == ["id = $1"] + Assignments(data[..i], 2)
      invariant values == [Int(pk)] + ValuesOf(data[..i])
      invariant idx == i + 2
    {
      values := values + [data[i].1];
      wheres := wheres + [data[i].0 + " = " + Placeholder(idx)];
      idx := idx + 1;
    }
    assert data[..|data|] == data;
  }

  /** `disable_by_where`. The template's line breaks and indentation are
      written as single spaces and its empty lines are dropped. */
  method DisableByWhere(table: string, pk: int, data: Fields, withDtime: bool)
    returns (query: string, values: seq<Value>)
    ensures values == [Int(pk)] + ValuesOf(data)
    ensures query == "UPDATE " + table + " SET en = false" + (if withDtime then " " + DTIME_CLAUSE else "")
                     + " WHERE " + Join(["id = $1"] + Assignments(data, 2), " AND ") + " RETURNING *"
  {
    var wheres;
    wheres, values := IdWheres(pk, data);
    query := "UPDATE " + table + " SET en = false" + (if withDtime then " " + DTIME_CLAUSE else "")
             + " WHERE " + Join(wheres, " AND ") + " RETURNING *";
  }

  /** `delete_by_where`, with the same WHERE list. */
  method DeleteByWhere(table: string, pk: int, data: Fields)
    returns (query: string, values: seq<Value>)
    ensures values == [Int(pk)] + ValuesOf(data)
    ensures query == "DELETE FROM " + table + " WHERE " + Join(["id = $1"] + Assignments(data, 2), " AND ") + " RETURNING *"
  {
    var wheres;
    wheres, values := IdWheres(pk, data);
    query := "DELETE FROM " + table + " WHERE " + Join(wheres, " AND ") + " RETURNING *";
  }

  /** An ORDER BY entry: a leading '-' means descending. */
  function OrderTerm(entry: string): (t: string)
    ensures |entry| > 0 && entry[0] == '-' ==> |t| == |entry| + 4 && t[..|entry| - 1] == entry[1..] && t[|entry| - 1..] == " DESC"
    ensures !(|entry| > 0 && entry[0] == '-') ==> t == entry
  {
    if |entry| > 0 && entry[0] == '-' then entry[1..] + " DESC" else entry
  }

  function WhereClause(where: string): (c: string)
    ensures c == "" <==> where == ""
    ensures c != "" ==> c == "WHERE " + where
  {
    if where != "" then "WHERE " + where else ""
  }

  function OrderClause(order: seq<string>): (c: string)
    ensures c == "" <==> |order| == 0
    ensures |order| > 0 ==> c == "ORDER BY " + Join(seq(|order|, i requires 0 <= i < |order| => OrderTerm(order[i])), ", ")
  {
    if |order| > 0 then "ORDER BY " + Join(seq(|order|, i requires 0 <= i < |order| => OrderTerm(order[i])), ", ") else ""
  }

  /** `LIMIT n` unless the limit is None or 0. */
  function LimitClause(limit: Option<int>): (c: string)
    ensures c == "" <==> limit.None? || limit.value == 0
    ensures c != "" ==> c == "LIMIT " + IntToString(limit.value)
  {
    if limit.Some? && limit.value != 0 then "LIMIT " + IntToString(limit.value) else ""
  }

  /** `OFFSET n` unless the offset is None or 0. */
  function OffsetClause(offset: Option<int>): (c: string)
    ensures c == "" <==> offset.None? || offset.value == 0
    ensures c != "" ==> c == "OFFSET " + IntToString(offset.value)
  {
    if offset.Some? && offset.value != 0 then "OFFSET " + IntToString(offset.value) else ""
  }

  /** `get_list`: the SELECT statement; the caller's values are bound
      unchanged. It is the head `SELECT fields FROM table` followed by the
      WHERE, ORDER BY, LIMIT and OFFSET clauses in that order, each
      separated by one space, whether or not it is empty. */
  function GetListQuery(table: string, where: string, limit: Option<int>, offset: Option<int>,
                        order: seq<string>, fields: seq<string>): (q: string)
    ensures q == Join(["SELECT " + FieldList(fields) + " FROM " + table, WhereClause(where), OrderClause(order),
                       LimitClause(limit), OffsetClause(offset)], " ")
  {
    JoinFive("SELECT " + FieldList(fields) + " FROM " + table, WhereClause(where), OrderClause(order),
             LimitClause(limit), OffsetClause(offset), " ");

    "SELECT " + FieldList(fields) + " FROM " + table + " " + WhereClause(where) + " " + OrderClause(order)
    + " " + LimitClause(limit) + " " + OffsetClause(offset)
  }

  /** The models of the records that convert, in record order. */
  function Converted<R, M>(records: seq<R>, toModel: R -> Option<M>): seq<M>
    decreases |records|
  {
    if records == [] then []
    else Converted(records[..|records| - 1], toModel)
         + (match toModel(records[|records| - 1]) case Some(m) => [m] case None => [])
  }

  /** No record yields more than one model; when every record converts, the
      i-th model is the i-th record's. */
  lemma {:induction false} ConvertedKeepsOrder<R, M>(records: seq<R>, toModel: R -> Option<M>)
    ensures |Converted(records, toModel)| <= |records|
    ensures (forall i :: 0 <= i < |records| ==> toModel(records[i]).Some?) ==>
      |Converted(records, toModel)| == |records|
      && forall i :: 0 <= i < |records| ==> Converted(records, toModel)[i] == toModel(records[i]).value
    decreases |records|
  {
    if records != [] {
      var init := records[..|records| - 1];
      ConvertedKeepsOrder(init, toModel);
      if forall i :: 0 <= i < |records| ==> toModel(records[i]).Some? {
        assert forall i :: 0 <= i < |init| ==> toModel(init[i]).Some? by {
          forall i | 0 <= i < |init| ensures toModel(init[i]).Some? {
            assert init[i] == records[i];
          }
        }
      }
    }
  }

  /** `record_to_model_list`: `toModel` is `record_to_model` for the model
      class, None for an empty record. */
  method RecordsToModels<R, M>(records: seq<R>, toModel: R -> Option<M>) returns (models: seq<M>)
    ensures models == Converted(records, toModel)
  {
    if |records| == 0 {
      return [];
    }
    models := [];
    for i := 0 to |records|
      invariant models == Converted(records[..i], toModel)
    {
      assert records[..i + 1][..i] == records[..i];
      var m := toModel(records[i]);
      if m.Some? {
        models := models + [m.value];
      }
    }
    assert records[..|records|] == records;
  }
}
