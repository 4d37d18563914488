/**
 * backend/schema.py `verify_schema`: every parsed task must hold six keys and a known
 * Status. Its failure branches build a notification with `Severity.FATAL`, which
 * backend/notification.py does not define, so each of them raises AttributeError before
 * anything is appended.
 */
module OrigSchema {
  import opened Wrappers
  import opened Exceptions
  import opened OrigTypes
  import opened Text

  const ExpectedColumns: seq<string> := ["Estimate", "Task", "next", "StartDate", "EndDate", "Status"]

  const StatusValues: seq<string> := ["in progress", "blocked", "milestone", "completed", "not started"]

  /**
   * What the loop may meet as a "task": a JSON value (an object read as a row dictionary,
   * a string, a number or boolean, a list of strings, `null`) or, when it is handed a
   * parse result pair, a whole list of rows or a `Metadata` object.
   */
  datatype Item =
    | RowItem(row: Row)
    | ListItem(rows: seq<Row>)
    | StrItem(s: string)
    | StrListItem(items: seq<string>)
    | ScalarItem
    | NoneItem
    | MetadataItem

  /** `key` occurs in `s` as a substring. */
  predicate Occurs(key: string, s: string)
    decreases |s|
  {
    StartsWith(s, key) || (|s| > 0 && Occurs(key, s[1..]))
  }

  /**
   * `key in item`: a dictionary's keys, a substring of a string, an element of a list (a
   * list of dictionaries never holds a string); numbers, `None` and `Metadata` cannot be
   * searched.
   */
  function Contains(item: Item, key: string): (r: Result<bool, Exc>)
    ensures item.RowItem? ==> r == Ok(key in item.row)
    ensures item.ListItem? ==> r == Ok(false)
    ensures item.StrItem? ==> r == Ok(Occurs(key, item.s))
    ensures item.StrListItem? ==> r == Ok(key in item.items)
    ensures (item.ScalarItem? || item.NoneItem? || item.MetadataItem?) ==> r == Err(TypeError("in"))
  {
    match item
    case RowItem(row) => Ok(key in row)
    case ListItem(_) => Ok(false)
    case StrItem(s) => Ok(Occurs(key, s))
    case StrListItem(items) => Ok(key in items)
    case _ => Err(TypeError("in"))
  }

  /** `key in item` holds. */
  predicate Has(item: Item, key: string) {
    Contains(item, key) == Ok(true)
  }

  /** A Status cell holds one of the allowed strings. */
  predicate ValidStatus(c: Cell) {
    c.Str? && c.s in StatusValues
  }

  /**
   * The checks of one expected key on one item. `task["Status"]` of a string or a list
   * raises TypeError, since their indices must be integers.
   */
  function KeyCheck(item: Item, key: string): (r: Outcome<Exc>)
  {
    var has := Contains(item, key);
    if has.Err? then Fail(has.error)
    else if !has.value then Fail(AttributeError("FATAL"))
    else if key == "Status" && !item.RowItem? then Fail(TypeError("indices"))
    else if key == "Status" && !ValidStatus(item.row["Status"]) then Fail(AttributeError("FATAL"))
    else Pass
  }

  /** The inner loop over the first `k` expected keys. */
  function ItemCheck(item: Item, k: nat): Outcome<Exc>
    requires k <= |ExpectedColumns|
  {
    if k == 0 then Pass
    else if ItemCheck(item, k - 1).Fail? then ItemCheck(item, k - 1)
    else KeyCheck(item, ExpectedColumns[k - 1])
  }

  /** The outer loop over the first `n` items. */
  function SchemaOf(items: seq<Item>, n: nat): Outcome<Exc>
    requires n <= |items|
  {
    if n == 0 then Pass
    else if SchemaOf(items, n - 1).Fail? then SchemaOf(items, n - 1)
    else ItemCheck(items[n - 1], |ExpectedColumns|)
  }

  /** A row a schema check accepts. */
  predicate Conforms(item: Item) {
    item.RowItem? && (forall k :: 0 <= k < |ExpectedColumns| ==> ExpectedColumns[k] in item.row)
    && "Status" in item.row && ValidStatus(item.row["Status"])
  }

  /**
   * The first `k` checks pass exactly when the item holds the first `k` keys and, once
   * "Status" is reached, is a row with an allowed Status. A failure is the undefined
   * severity on a missing key or a bad Status, TypeError on an item `in` cannot search, and
   * TypeError on a string or list that holds every key, at `task["Status"]`.
   */
  lemma {:induction false} ItemCheckPasses(item: Item, k: nat)
    requires k <= |ExpectedColumns|
    ensures ItemCheck(item, k).Pass? <==>
      (forall j :: 0 <= j < k ==> Has(item, ExpectedColumns[j]))
      && (k == |ExpectedColumns| ==> item.RowItem? && "Status" in item.row && ValidStatus(item.row["Status"]))
    ensures ItemCheck(item, k).Fail? && (item.RowItem? || item.ListItem?) ==>
      ItemCheck(item, k).error == AttributeError("FATAL")
    ensures ItemCheck(item, k).Fail? && (item.ScalarItem? || item.NoneItem? || item.MetadataItem?) ==>
      ItemCheck(item, k).error == TypeError("in")
    ensures ItemCheck(item, k).Fail? && (item.StrItem? || item.StrListItem?) ==>
      ItemCheck(item, k).error ==
        (if forall j :: 0 <= j < k ==> Has(item, ExpectedColumns[j]) then TypeError("indices") else AttributeError("FATAL"))
  {
    if k > 0 {
      ItemCheckPasses(item, k - 1);
      if k == |ExpectedColumns| {
        assert ExpectedColumns[k - 1] == "Status";
      } else {
        assert ExpectedColumns[k - 1] != "Status";
      }
      if item.ScalarItem? || item.NoneItem? || item.MetadataItem? {
        assert !Has(item, ExpectedColumns[0]);
      }
    }
  }

  /** The check passes iff every item is a row with all six keys and an allowed Status. */
  lemma {:induction false} SchemaPasses(items: seq<Item>, n: nat)
    requires n <= |items|
    ensures SchemaOf(items, n).Pass? <==> forall i :: 0 <= i < n ==> Conforms(items[i])
    ensures SchemaOf(items, n).Fail? ==>
      SchemaOf(items, n).error in {AttributeError("FATAL"), TypeError("in"), TypeError("indices")}
  {
    if n > 0 {
      SchemaPasses(items, n - 1);
      ItemCheckPasses(items[n - 1], |ExpectedColumns|);
    }
  }

  /** Once one item fails, the later ones are never looked at. */
  lemma {:induction false} SchemaFailureStays(items: seq<Item>, n: nat, m: nat)
    requires n <= m <= |items| && SchemaOf(items, n).Fail?
    ensures SchemaOf(items, m) == SchemaOf(items, n)
    decreases m
  {
    if m > n {
      SchemaFailureStays(items, n, m - 1);
    }
  }

  lemma {:induction false} ItemFailureStays(item: Item, k: nat, m: nat)
    requires k <= m <= |ExpectedColumns| && ItemCheck(item, k).Fail?
    ensures ItemCheck(item, m) == ItemCheck(item, k)
    decreases m
  {
    if m > k {
      ItemFailureStays(item, k, m - 1);
    }
  }

  /** Rows alone can only fail with the undefined severity. */
  lemma RowsFailFatal(items: seq<Item>)
    requires forall i :: 0 <= i < |items| ==> items[i].RowItem?
    requires SchemaOf(items, |items|).Fail?
    ensures SchemaOf(items, |items|).error == AttributeError("FATAL")
  {
    FirstFailure(items, |items|);
    var i :| 0 <= i < |items| && SchemaOf(items, |items|) == ItemCheck(items[i], |ExpectedColumns|);
    ItemCheckPasses(items[i], |ExpectedColumns|);
  }

  /** The failure comes from the first item that fails its own check. */
  lemma {:induction false} FirstFailure(items: seq<Item>, n: nat)
    requires n <= |items| && SchemaOf(items, n).Fail?
    ensures exists i :: 0 <= i < n && SchemaOf(items, n) == ItemCheck(items[i], |ExpectedColumns|)
    decreases n
  {
    if SchemaOf(items, n - 1).Fail? {
      FirstFailure(items, n - 1);
    }
  }

  /**
   * `verify_schema`. It returns True or raises; the notifications it is handed come back
   * unchanged, since every append raises first.
   */
  method VerifySchema(items: seq<Item>, notes: seq<Notification>) returns (r: Result<bool, Exc>, notes': seq<Notification>)
    ensures notes' == notes
    ensures r.Ok? <==> SchemaOf(items, |items|).Pass?
    ensures r.Ok? ==> r.value
    ensures r.Err? ==> r.error == SchemaOf(items, |items|).error
  {
    notes' := notes;
    for n := 0 to |items|
      invariant SchemaOf(items, n).Pass?
    {
      var item := items[n];
      for k := 0 to |ExpectedColumns|
        invariant ItemCheck(item, k).Pass?
      {
        var expected := ExpectedColumns[k];
        var has := Contains(item, expected);
        if has.Err? {
          ItemFailureStays(item, k + 1, |ExpectedColumns|);
          SchemaFailureStays(items, n + 1, |items|);
          return Err(has.error), notes';
        }
        if !has.value {
          ItemFailureStays(item, k + 1, |ExpectedColumns|);
          SchemaFailureStays(items, n + 1, |items|);
          return Err(AttributeError("FATAL")), notes';
        }
        if expected == "Status" && !item.RowItem? {
          ItemFailureStays(item, k + 1, |ExpectedColumns|);
          SchemaFailureStays(items, n + 1, |items|);
          return Err(TypeError("indices")), notes';
        }
        if expected == "Status" && !ValidStatus(item.row["Status"]) {
          ItemFailureStays(item, k + 1, |ExpectedColumns|);
          SchemaFailureStays(items, n + 1, |items|);
          return Err(AttributeError("FATAL")), notes';
        }
      }
    }
    return Ok(true), notes';
  }
}
