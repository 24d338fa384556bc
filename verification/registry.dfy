/**
 Method registration (`setMethods`, `setMethod` and `freezeMethods` in
 src/Endpoint.js): each table entry records its name in the resource's
 method list and defines a method of that name, plus a `…All` companion
 for an entry whose `paginate` is a text; once the endpoint is frozen,
 defining does nothing.
 */
module Registry {
  import opened Wrappers
  import opened Endpoints

  /** The registration state: frozen or not, the recorded names in order,
      and the names defined on the resource. */
  datatype Methods = Methods(frozen: bool, names: seq<string>, defined: seq<string>)

  /** Nothing registered yet. */
  const Fresh := Methods(false, [], [])

  /** Define a method name (redefining keeps it where it was). */
  function Define(defined: seq<string>, k: string): (d: seq<string>)
    ensures k in d
    ensures forall x | x in defined :: x in d
    ensures forall x | x in d :: x in defined || x == k
  {
    if k in defined then defined else defined + [k]
  }

  /** One table entry. */
  function SetMethod(m: Methods, a: Action): Methods {
    if m.frozen then m
    else
      var d := Define(m.defined, a.name);
      Methods(false, m.names + [a.name], if a.paginate.Some? then Define(d, a.name + "All") else d)
  }

  /** Every entry of a table, in order. */
  function SetAll(m: Methods, table: seq<Action>): Methods
    decreases |table|
  {
    if |table| == 0 then m else SetAll(SetMethod(m, table[0]), table[1..])
  }

  function Freeze(m: Methods): (f: Methods)
    ensures f.frozen && f.names == m.names && f.defined == m.defined
  {
    m.(frozen := true)
  }

  /** A whole table, then freeze. */
  function SetMethods(m: Methods, table: seq<Action>): Methods {
    Freeze(SetAll(m, table))
  }

  /** The names of a table's entries, in order. */
  function ActionNames(table: seq<Action>): seq<string> {
    seq(|table|, i requires 0 <= i < |table| => table[i].name)
  }

  /** A frozen endpoint ignores further definitions. */
  lemma FrozenIgnores(m: Methods, a: Action)
    requires m.frozen
    ensures SetMethod(m, a) == m
  {
  }

  /** Registering a table on an unfrozen endpoint records the entries'
      names in table order and leaves it unfrozen until the freeze. */
  lemma {:induction false} SetAllNames(m: Methods, table: seq<Action>)
    requires !m.frozen
    ensures !SetAll(m, table).frozen
    ensures SetAll(m, table).names == m.names + ActionNames(table)
    decreases |table|
  {
    if |table| > 0 {
      SetAllNames(SetMethod(m, table[0]), table[1..]);
      assert ActionNames(table) == [table[0].name] + ActionNames(table[1..]);
    }
  }

  /** Every entry, and the companion of every entry with a text
      `paginate`, is defined; nothing defined before is lost. */
  lemma {:induction false} SetAllDefines(m: Methods, table: seq<Action>)
    requires !m.frozen
    ensures forall x | x in m.defined :: x in SetAll(m, table).defined
    ensures forall i | 0 <= i < |table| :: table[i].name in SetAll(m, table).defined
    ensures forall i | 0 <= i < |table| && table[i].paginate.Some? :: table[i].name + "All" in SetAll(m, table).defined
    decreases |table|
  {
    if |table| > 0 {
      var next := SetMethod(m, table[0]);
      SetAllDefines(next, table[1..]);
      var r := SetAll(m, table);
      assert r == SetAll(next, table[1..]);
      forall i | 1 <= i < |table|
        ensures table[i].name in r.defined
        ensures table[i].paginate.Some? ==> table[i].name + "All" in r.defined
      {
        assert table[1..][i - 1] == table[i];
      }
    }
  }

  /** A resource's whole table on a fresh endpoint: the recorded names are
      the entries' names in table order, and every entry with a text
      `paginate` has its companion defined. */
  lemma Registers(table: seq<Action>)
    ensures SetMethods(Fresh, table).names == ActionNames(table)
    ensures forall i | 0 <= i < |table| && table[i].paginate.Some? :: table[i].name + "All" in SetMethods(Fresh, table).defined
  {
    SetAllNames(Fresh, table);
    SetAllDefines(Fresh, table);
  }

  /** A name defined by a table entry, or the companion of one whose
      `paginate` is a text. */
  predicate DefinedBy(table: seq<Action>, x: string) {
    exists i | 0 <= i < |table| :: x == table[i].name || (table[i].paginate.Some? && x == table[i].name + "All")
  }

  /** Nothing is defined but the entries and their companions. */
  lemma {:induction false} SetAllOnly(m: Methods, table: seq<Action>)
    requires !m.frozen
    ensures forall x | x in SetAll(m, table).defined :: x in m.defined || DefinedBy(table, x)
    decreases |table|
  {
    if |table| > 0 {
      var next := SetMethod(m, table[0]);
      SetAllOnly(next, table[1..]);
      var r := SetAll(m, table);
      assert r == SetAll(next, table[1..]);
      forall x | x in r.defined
        ensures x in m.defined || DefinedBy(table, x)
      {
        if x in next.defined && x !in m.defined {
          assert x == table[0].name || (table[0].paginate.Some? && x == table[0].name + "All");
        } else if x !in next.defined {
          assert DefinedBy(table[1..], x);
          var j :| 0 <= j < |table[1..]| && (x == table[1..][j].name || (table[1..][j].paginate.Some? && x == table[1..][j].name + "All"));
          assert table[1..][j] == table[j + 1];
        }
      }
    }
  }

  /** After `setMethods`, the endpoint is frozen and defining more does nothing. */
  lemma SetMethodsFreezes(m: Methods, table: seq<Action>, a: Action)
    ensures SetMethods(m, table).frozen
    ensures SetMethod(SetMethods(m, table), a) == SetMethods(m, table)
  {
  }
}
