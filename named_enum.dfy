/** A fixed table of (name, value) pairs, looked up in either direction.
    Name lookup yields the value of the first entry with that name and a
    success flag; an unknown name yields the value of the table's first entry
    with the flag cleared. Value lookup yields the name of the first entry
    carrying that value, so that when several names alias one value the first
    one listed is the canonical name. */
module NamedEnum {

  /** The outcome of a lookup by name: the value found and whether the name matched. */
  datatype Lookup<E> = Lookup(value: E, ok: bool)

  type Table<E> = seq<(string, E)>

  /** No two entries share a name (several names may share a value). */
  ghost predicate NamesDistinct<E>(t: Table<E>)
  {
    forall i, j :: 0 <= i < j < |t| ==> t[i].0 != t[j].0
  }

  /** Index of the first entry at or after `from` named `name`, or |t| when there is none. */
  function IndexOfName<E>(t: Table<E>, name: string, from: nat): (k: nat)
    requires from <= |t|
    ensures from <= k <= |t|
    decreases |t| - from
  {
    if from == |t| then |t|
    else if t[from].0 == name then from
    else IndexOfName(t, name, from + 1)
  }

  /** Index of the first entry at or after `from` whose value is `v`, or |t| when there is none. */
  function IndexOfValue<E(==)>(t: Table<E>, v: E, from: nat): (k: nat)
    requires from <= |t|
    ensures from <= k <= |t|
    decreases |t| - from
  {
    if from == |t| then |t|
    else if t[from].1 == v then from
    else IndexOfValue(t, v, from + 1)
  }

  /** The search by name stops at the first entry with that name. */
  lemma {:induction false} IndexOfNameIsFirst<E>(t: Table<E>, name: string, from: nat)
    requires from <= |t|
    ensures var k := IndexOfName(t, name, from);
            && (forall j :: from <= j < k ==> t[j].0 != name)
            && (k < |t| ==> t[k].0 == name)
    decreases |t| - from
  {
    if from < |t| && t[from].0 != name {
      IndexOfNameIsFirst(t, name, from + 1);
    }
  }

  /** The search by value stops at the first entry with that value. */
  lemma {:induction false} IndexOfValueIsFirst<E>(t: Table<E>, v: E, from: nat)
    requires from <= |t|
    ensures var k := IndexOfValue(t, v, from);
            && (forall j :: from <= j < k ==> t[j].1 != v)
            && (k < |t| ==> t[k].1 == v)
    decreases |t| - from
  {
    if from < |t| && t[from].1 != v {
      IndexOfValueIsFirst(t, v, from + 1);
    }
  }

  /** Lookup by name: first matching entry, else the first entry's value with `ok` false. */
  function FindByName<E>(t: Table<E>, name: string): (r: Lookup<E>)
    requires t != []
    ensures !r.ok ==> r.value == t[0].1
  {
    var k := IndexOfName(t, name, 0);
    if k < |t| then Lookup(t[k].1, true) else Lookup(t[0].1, false)
  }

  /** Lookup by value: the name of the first entry carrying `v`, or "" when none does. */
  function FindByValue<E(==)>(t: Table<E>, v: E): string
  {
    var k := IndexOfValue(t, v, 0);
    if k < |t| then t[k].0 else ""
  }

  /** The values named by the entries of `names` that the table recognises. */
  function NamedValues<E>(t: Table<E>, names: seq<string>): set<E>
    requires t != []
  {
    if names == [] then {}
    else
      var last := FindByName(t, names[|names| - 1]);
      NamedValues(t, names[..|names| - 1]) + (if last.ok then {last.value} else {})
  }

  /** Looking up one more entry adds the value it names, if any. */
  lemma NamedValuesStep<E>(t: Table<E>, names: seq<string>, i: nat)
    requires t != [] && i < |names|
    ensures var found := FindByName(t, names[i]);
            NamedValues(t, names[..i + 1]) ==
              NamedValues(t, names[..i]) + (if found.ok then {found.value} else {})
  {
    assert names[..i + 1][..i] == names[..i];
  }

  /** A value is named by the list exactly when some entry looks up to it. */
  lemma {:induction false} NamedValuesMembers<E>(t: Table<E>, names: seq<string>, v: E)
    requires t != []
    ensures v in NamedValues(t, names) <==>
              exists i :: 0 <= i < |names| && FindByName(t, names[i]) == Lookup(v, true)
  {
    if names != [] {
      var n := |names| - 1;
      var init := names[..n];
      NamedValuesMembers(t, init, v);
      if v in NamedValues(t, names) {
        if v in NamedValues(t, init) {
          var i :| 0 <= i < |init| && FindByName(t, init[i]) == Lookup(v, true);
          assert names[i] == init[i];
        } else {
          assert FindByName(t, names[n]) == Lookup(v, true);
        }
      }
      if exists i :: 0 <= i < |names| && FindByName(t, names[i]) == Lookup(v, true) {
        var i :| 0 <= i < |names| && FindByName(t, names[i]) == Lookup(v, true);
        if i < n {
          assert init[i] == names[i];
        }
      }
    }
  }

  /** A lookup by name succeeds exactly when some entry has the name, and
      then answers with the value of the first such entry. */
  lemma FindByNameMeaning<E>(t: Table<E>, name: string)
    requires t != []
    ensures FindByName(t, name).ok <==> exists i :: 0 <= i < |t| && t[i].0 == name
    ensures FindByName(t, name).ok ==>
              exists k :: 0 <= k < |t| && t[k] == (name, FindByName(t, name).value)
                          && forall j :: 0 <= j < k ==> t[j].0 != name
  {
    IndexOfNameIsFirst(t, name, 0);
    var k := IndexOfName(t, name, 0);
    if k < |t| {
      assert t[k] == (name, FindByName(t, name).value);
    }
  }

  /** A lookup by value answers with the name of the first entry carrying the
      value, and with "" when no entry does. */
  lemma FindByValueMeaning<E>(t: Table<E>, v: E)
    ensures (exists i :: 0 <= i < |t| && t[i].1 == v) ==>
              exists k :: 0 <= k < |t| && t[k] == (FindByValue(t, v), v)
                          && forall j :: 0 <= j < k ==> t[j].1 != v
    ensures (forall i :: 0 <= i < |t| ==> t[i].1 != v) ==> FindByValue(t, v) == ""
  {
    IndexOfValueIsFirst(t, v, 0);
    var k := IndexOfValue(t, v, 0);
    if k < |t| {
      assert t[k] == (FindByValue(t, v), v);
    }
  }

  /** In a table with distinct names, value -> name -> value gives back the value. */
  lemma RoundTrip<E>(t: Table<E>, v: E)
    requires NamesDistinct(t)
    requires exists i :: 0 <= i < |t| && t[i].1 == v
    ensures FindByName(t, FindByValue(t, v)) == Lookup(v, true)
  {
    IndexOfValueIsFirst(t, v, 0);
    var k := IndexOfValue(t, v, 0);
    var name := t[k].0;
    IndexOfNameIsFirst(t, name, 0);
    assert IndexOfName(t, name, 0) == k;
  }
}
