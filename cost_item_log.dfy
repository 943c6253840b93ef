/**
 * `CostItemLog`: the description of what an update changed, the message chosen by the
 * logged action, and the formatted old and new values. Translation (`__()`) and JSON
 * encoding are parameters: the model fixes which message key is used with which arguments.
 */
module CostItemLogs {
  import Common

  /** A decoded JSON value of the `old_value` / `new_value` columns (cast to PHP arrays). */
  datatype Value =
    | VNull
    | VBool(b: bool)
    | VInt(i: int)
    | VReal(r: real)
    | VStr(s: string)
    | VArray(entries: seq<(string, Value)>)

  /** PHP truthiness: null, false, 0, 0.0, "", "0" and the empty array are falsy. */
  predicate Truthy(v: Value) {
    match v
    case VNull => false
    case VBool(b) => b
    case VInt(i) => i != 0
    case VReal(r) => r != 0.0
    case VStr(s) => Common.Truthy(s)
    case VArray(entries) => entries != []
  }

  /** A stored column: `None` when the column is null. */
  predicate TruthyStored(v: Common.Option<Value>) {
    v.Some? && Truthy(v.value)
  }

  /** A PHP array's entries: each key once. */
  ghost predicate DistinctKeys(entries: seq<(string, Value)>) {
    forall i, j :: 0 <= i < j < |entries| ==> entries[i].0 != entries[j].0
  }

  /** `$array[$key]`: the value under the key, `None` when the key is absent. */
  function Lookup(entries: seq<(string, Value)>, key: string): (r: Common.Option<Value>)
    ensures r.Some? <==> exists i :: 0 <= i < |entries| && entries[i].0 == key
    ensures r.Some? ==> exists i :: 0 <= i < |entries| && entries[i] == (key, r.value)
  {
    if entries == [] then Common.None
    else if entries[0].0 == key then Common.Some(entries[0].1)
    else
      var r := Lookup(entries[1..], key);
      assert forall i :: 0 <= i < |entries| - 1 ==> entries[1..][i] == entries[i + 1];
      r
  }

  /** Under distinct keys, the entry at position i is what the lookup of its key finds. */
  lemma {:induction false} LookupAt(entries: seq<(string, Value)>, i: int)
    requires DistinctKeys(entries) && 0 <= i < |entries|
    ensures Lookup(entries, entries[i].0) == Common.Some(entries[i].1)
  {
    if i > 0 {
      assert forall a, b :: 0 <= a < b < |entries| - 1 ==> entries[1..][a] == entries[a + 1] && entries[1..][b] == entries[b + 1];
      LookupAt(entries[1..], i - 1);
    }
  }

  /** The entries of an old value, as the loop reads them: a non-array old value has none. */
  function OldEntries(prior: Value): seq<(string, Value)> {
    if prior.VArray? then prior.entries else []
  }

  /** `isset($old_value[$key])`: the key is present with a non-null value. */
  predicate IsSet(prior: Value, key: string) {
    var v := Lookup(OldEntries(prior), key);
    v.Some? && v.value != VNull
  }

  /** One reported change: the field, the old value (`None` for the `not_set` placeholder) and the new value. */
  datatype Change = Change(field: string, prior: Common.Option<Value>, next: Value)

  /** `!isset($old_value[$key]) || $old_value[$key] !== $newValue`: strict, so a null field is always reported. */
  predicate Changed(prior: Value, key: string, newValue: Value) {
    !IsSet(prior, key) || Lookup(OldEntries(prior), key).value != newValue
  }

  /** The change reported for a key: its old value when set (`??`), the placeholder otherwise. */
  function ChangeOf(prior: Value, key: string, newValue: Value): Change {
    Change(key, if IsSet(prior, key) then Lookup(OldEntries(prior), key) else Common.None, newValue)
  }

  /** The changes reported for the new entries, in their order. */
  function Changes(prior: Value, newEntries: seq<(string, Value)>): seq<Change>
  {
    if newEntries == [] then []
    else
      var last := newEntries[|newEntries| - 1];
      Changes(prior, newEntries[..|newEntries| - 1]) + (if Changed(prior, last.0, last.1) then [ChangeOf(prior, last.0, last.1)] else [])
  }

  /** The changes of a log entry: none unless both columns are truthy and the new value is an array. */
  function ChangesOf(prior: Common.Option<Value>, next: Common.Option<Value>): seq<Change> {
    if !TruthyStored(prior) || !TruthyStored(next) || !next.value.VArray? then []
    else Changes(prior.value, next.value.entries)
  }

  /** One more entry adds its change when it is changed, and nothing otherwise. */
  lemma ChangesSnoc(prior: Value, s: seq<(string, Value)>, i: int)
    requires 0 <= i < |s|
    ensures Changes(prior, s[..i + 1]) ==
            Changes(prior, s[..i]) + (if Changed(prior, s[i].0, s[i].1) then [ChangeOf(prior, s[i].0, s[i].1)] else [])
  {
    assert s[..i + 1][..i] == s[..i];
  }

  /** The changes of entries taken together are those of the first part followed by those of the second: the order is the new value's. */
  lemma {:induction false} ChangesAppend(prior: Value, s: seq<(string, Value)>, t: seq<(string, Value)>)
    ensures Changes(prior, s + t) == Changes(prior, s) + Changes(prior, t)
  {
    if t != [] {
      assert (s + t)[..|s + t| - 1] == s + t[..|t| - 1];
      assert (s + t)[|s + t| - 1] == t[|t| - 1];
      ChangesAppend(prior, s, t[..|t| - 1]);
    } else {
      assert s + t == s;
    }
  }

  /** Every changed entry is reported. */
  lemma {:induction false} ChangedIsReported(prior: Value, s: seq<(string, Value)>, i: int)
    requires 0 <= i < |s| && Changed(prior, s[i].0, s[i].1)
    ensures ChangeOf(prior, s[i].0, s[i].1) in Changes(prior, s)
  {
    if i < |s| - 1 {
      assert s[..|s| - 1][i] == s[i];
      ChangedIsReported(prior, s[..|s| - 1], i);
    }
  }

  /** Every reported change is that of a changed entry. */
  lemma {:induction false} ReportedIsChanged(prior: Value, s: seq<(string, Value)>, c: Change)
    requires c in Changes(prior, s)
    ensures exists i :: 0 <= i < |s| && Changed(prior, s[i].0, s[i].1) && c == ChangeOf(prior, s[i].0, s[i].1)
  {
    var init := s[..|s| - 1];
    if c in Changes(prior, init) {
      ReportedIsChanged(prior, init, c);
      var i :| 0 <= i < |init| && Changed(prior, init[i].0, init[i].1) && c == ChangeOf(prior, init[i].0, init[i].1);
      assert init[i] == s[i];
    } else {
      assert Changed(prior, s[|s| - 1].0, s[|s| - 1].1) && c == ChangeOf(prior, s[|s| - 1].0, s[|s| - 1].1);
    }
  }

  /**
   * A field is reported exactly when it is a key of the new value and is unset in, or
   * strictly different from, the old value; keys only in the old value are never reported.
   */
  lemma ChangedFieldsExactly(prior: Value, newEntries: seq<(string, Value)>, key: string)
    ensures (exists c :: c in Changes(prior, newEntries) && c.field == key)
        <==> (exists i :: 0 <= i < |newEntries| && newEntries[i].0 == key && Changed(prior, key, newEntries[i].1))
  {
    if exists i :: 0 <= i < |newEntries| && newEntries[i].0 == key && Changed(prior, key, newEntries[i].1) {
      var i :| 0 <= i < |newEntries| && newEntries[i].0 == key && Changed(prior, key, newEntries[i].1);
      ChangedIsReported(prior, newEntries, i);
    }
    if exists c :: c in Changes(prior, newEntries) && c.field == key {
      var c :| c in Changes(prior, newEntries) && c.field == key;
      ReportedIsChanged(prior, newEntries, c);
    }
  }

  /** A field holding null is reported even when old and new agree, with the `not_set` placeholder. */
  lemma NullFieldReported(prior: Value, key: string)
    requires Lookup(OldEntries(prior), key) == Common.Some(VNull)
    ensures Changed(prior, key, VNull) && ChangeOf(prior, key, VNull) == Change(key, Common.None, VNull)
  {
  }

  /** No field with a non-null value that old and new share is reported. */
  lemma {:induction false} UnchangedNotReported(entries: seq<(string, Value)>)
    requires DistinctKeys(entries)
    requires forall i :: 0 <= i < |entries| ==> entries[i].1 != VNull
    ensures Changes(VArray(entries), entries) == []
  {
    var k := 0;
    while k < |entries|
      invariant 0 <= k <= |entries|
      invariant Changes(VArray(entries), entries[..k]) == []
    {
      LookupAt(entries, k);
      assert entries[..k + 1][..k] == entries[..k];
      k := k + 1;
    }
    assert entries[..|entries|] == entries;
  }

  /** The `foreach` of `getChangesDescription`, with `render` the `field_changed` translation. */
  method ChangesDescription(prior: Common.Option<Value>, next: Common.Option<Value>, render: Change -> string)
    returns (description: string)
    ensures description == Common.Implode(Rendered(ChangesOf(prior, next), render), ", ")
    ensures !TruthyStored(prior) || !TruthyStored(next) ==> description == ""
  {
    if !TruthyStored(prior) || !TruthyStored(next) {
      return "";
    }
    var changes: seq<string> := [];
    if next.value.VArray? {
      var entries := next.value.entries;
      var i := 0;
      while i < |entries|
        invariant 0 <= i <= |entries|
        invariant changes == Rendered(Changes(prior.value, entries[..i]), render)
      {
        var key, newValue := entries[i].0, entries[i].1;
        ChangesSnoc(prior.value, entries, i);
        RenderedSnoc(Changes(prior.value, entries[..i]), ChangeOf(prior.value, key, newValue), render);
        if !IsSet(prior.value, key) || Lookup(OldEntries(prior.value), key).value != newValue {
          var oldValue := if IsSet(prior.value, key) then Lookup(OldEntries(prior.value), key) else Common.None;
          changes := changes + [render(Change(key, oldValue, newValue))];
        }
        i := i + 1;
      }
      assert entries[..|entries|] == entries;
    }
    description := Common.Implode(changes, ", ");
  }

  /** The rendered text of each change, in order. */
  function Rendered(changes: seq<Change>, render: Change -> string): (r: seq<string>)
    ensures |r| == |changes| && forall i :: 0 <= i < |changes| ==> r[i] == render(changes[i])
  {
    if changes == [] then [] else Rendered(changes[..|changes| - 1], render) + [render(changes[|changes| - 1])]
  }

  lemma RenderedSnoc(a: seq<Change>, c: Change, render: Change -> string)
    ensures Rendered(a + [c], render) == Rendered(a, render) + [render(c)]
  {
    assert (a + [c])[..|a|] == a;
  }

  // ----- formatMessage -----

  /** The translation key and arguments of a log message; `None` names are the unknown-user / deleted-item placeholders. */
  datatype Message = Message(key: string, user: Common.Option<string>, item: Common.Option<string>, changes: Common.Option<string>)

  /** A log row as `formatMessage` reads it. */
  datatype LogEntry = LogEntry(action: Common.Option<string>, userName: Common.Option<string>, itemName: Common.Option<string>,
                               oldValue: Common.Option<Value>, newValue: Common.Option<Value>)

  /**
   * `formatMessage`: `create`, `update` and `delete` have their own messages, every other
   * action (null included) the `log_modified` one; only `update` carries the description.
   */
  function FormatMessage(e: LogEntry, render: Change -> string): (m: Message)
    ensures m.user == e.userName && m.item == e.itemName
    ensures m.key == "log_created" <==> e.action == Common.Some("create")
    ensures m.key == "log_updated" <==> e.action == Common.Some("update")
    ensures m.key == "log_deleted" <==> e.action == Common.Some("delete")
    ensures m.key == "log_modified" <==> e.action !in {Common.Some("create"), Common.Some("update"), Common.Some("delete")}
    ensures m.changes.Some? <==> e.action == Common.Some("update")
    ensures m.changes.Some? ==> m.changes.value == Common.Implode(Rendered(ChangesOf(e.oldValue, e.newValue), render), ", ")
  {
    if e.action == Common.Some("create") then Message("log_created", e.userName, e.itemName, Common.None)
    else if e.action == Common.Some("update") then
      Message("log_updated", e.userName, e.itemName,
              Common.Some(Common.Implode(Rendered(ChangesOf(e.oldValue, e.newValue), render), ", ")))
    else if e.action == Common.Some("delete") then Message("log_deleted", e.userName, e.itemName, Common.None)
    else Message("log_modified", e.userName, e.itemName, Common.None)
  }

  // ----- formatted old / new value -----

  /**
   * `getFormattedOldValueAttribute` / `getFormattedNewValueAttribute`: '' for a falsy value,
   * the pretty JSON of an array, the string cast of anything else.
   */
  function FormattedValue(v: Common.Option<Value>, prettyJson: Value -> string, asString: Value -> string): (r: string)
    ensures !TruthyStored(v) ==> r == ""
    ensures TruthyStored(v) && v.value.VArray? ==> r == prettyJson(v.value)
    ensures TruthyStored(v) && !v.value.VArray? ==> r == asString(v.value)
  {
    if !TruthyStored(v) then "" else if v.value.VArray? then prettyJson(v.value) else asString(v.value)
  }
}
