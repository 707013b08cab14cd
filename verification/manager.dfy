/**
 * The test-fixture manager: a table of default field values per relation,
 * overrides that set one field each, and a Create operation that inserts
 * the resolved field values into the relation.
 *
 * Field values are of any type; the type parameter V stands for them.
 * A fatal test failure (which stops the test goroutine) is modelled as a
 * Failure/Fail value that the operation returns at once.
 */
module DbManager {
  import opened Wrappers

  /** Why the test setup was aborted. */
  datatype Fatal =
    | NoDefaultValues(relation: string)
    | CreateFailed(table: string, cause: InsertError)

  /** The error the database reports for a failed insert statement. */
  datatype InsertError = InsertError(detail: string)

  /**
   * An override of the default values. SetFieldValue is its only
   * constructor: an override always writes one value under one field.
   */
  datatype RelationValuesOption<V> = SetFieldValue(field: string, value: V)

  /** The fields that some override in `opts` writes. */
  function Fields<V>(opts: seq<RelationValuesOption<V>>): set<string>
  {
    set i | 0 <= i < |opts| :: opts[i].field
  }

  /** The effect of running one override on a map of field values. */
  function Apply<V>(opt: RelationValuesOption<V>, m: map<string, V>): (r: map<string, V>)
    ensures r.Keys == m.Keys + {opt.field}
    ensures r[opt.field] == opt.value
    ensures forall k :: k in m && k != opt.field ==> r[k] == m[k]
  {
    m[opt.field := opt.value]
  }

  /** The effect of running the overrides `opts`, first to last, on `m`. */
  function ApplyAll<V>(m: map<string, V>, opts: seq<RelationValuesOption<V>>): (r: map<string, V>)
    ensures r.Keys == m.Keys + Fields(opts)
    decreases |opts|
  {
    if opts == [] then m
    else
      var n := |opts| - 1;
      assert Fields(opts) == Fields(opts[..n]) + {opts[n].field};
      Apply(opts[n], ApplyAll(m, opts[..n]))
  }

  /**
   * The value set that resolving `relation` with overrides `opts` against the
   * default table `defaults` yields, or the fatal error that aborts it.
   */
  function Resolve<V>(defaults: map<string, map<string, V>>, relation: string,
                      opts: seq<RelationValuesOption<V>>): (r: Result<map<string, V>, Fatal>)
    ensures r.Failure? <==> relation !in defaults
    ensures r.Failure? ==> r.error == NoDefaultValues(relation)
    ensures r.Success? ==> r.value.Keys == defaults[relation].Keys + Fields(opts)
    ensures r.Success? && opts == [] ==> r.value == defaults[relation]
  {
    if relation !in defaults then Failure(NoDefaultValues(relation))
    else Success(ApplyAll(defaults[relation], opts))
  }

  /** Running the overrides `a` and then `b` is running `a + b`. */
  lemma {:induction false} ApplyAllConcat<V>(m: map<string, V>, a: seq<RelationValuesOption<V>>,
                                             b: seq<RelationValuesOption<V>>)
    ensures ApplyAll(m, a + b) == ApplyAll(ApplyAll(m, a), b)
    decreases |b|
  {
    if b == [] {
      assert a + b == a;
    } else {
      var n := |b| - 1;
      assert (a + b)[..|a + b| - 1] == a + b[..n];
      assert (a + b)[|a + b| - 1] == b[n];
      ApplyAllConcat(m, a, b[..n]);
    }
  }

  /**
   * The value of a field is the value of the last override that writes it:
   * when option `i` is the last one naming its field, that field ends up
   * with option `i`'s value.
   */
  lemma {:induction false} LastWriteWins<V>(m: map<string, V>, opts: seq<RelationValuesOption<V>>, i: nat)
    requires i < |opts|
    requires forall j :: i < j < |opts| ==> opts[j].field != opts[i].field
    ensures opts[i].field in ApplyAll(m, opts)
    ensures ApplyAll(m, opts)[opts[i].field] == opts[i].value
    decreases |opts|
  {
    var n := |opts| - 1;
    if i < n {
      var prefix := opts[..n];
      assert prefix[i] == opts[i];
      forall j | i < j < |prefix| ensures prefix[j].field != prefix[i].field {
        assert prefix[j] == opts[j];
      }
      LastWriteWins(m, prefix, i);
    }
  }

  /** A field that no override writes keeps its default value. */
  lemma {:induction false} UntouchedFieldKeepsDefault<V>(m: map<string, V>, opts: seq<RelationValuesOption<V>>,
                                                        k: string)
    requires k in m
    requires forall i :: 0 <= i < |opts| ==> opts[i].field != k
    ensures k in ApplyAll(m, opts) && ApplyAll(m, opts)[k] == m[k]
    decreases |opts|
  {
    if opts != [] {
      var n := |opts| - 1;
      forall i | 0 <= i < n ensures opts[..n][i].field != k {
        assert opts[..n][i] == opts[i];
      }
      UntouchedFieldKeepsDefault(m, opts[..n], k);
    }
  }

  /** Running the same override twice in a row has the effect of running it once. */
  lemma {:induction false} RepeatedOverrideIsIdempotent<V>(m: map<string, V>, opts: seq<RelationValuesOption<V>>,
                                                          opt: RelationValuesOption<V>)
    ensures ApplyAll(m, opts + [opt, opt]) == ApplyAll(m, opts + [opt])
  {
    var once := opts + [opt];
    assert (once + [opt])[..|once|] == once;
    assert opts + [opt, opt] == once + [opt];
  }

  /**
   * A map from field names to values, which the source updates in place
   * (a reference-typed map).
   */
  class RelationValues<V> {
    var entries: map<string, V>

    /** An empty value set. */
    constructor ()
      ensures entries == map[]
    {
      entries := map[];
    }

    /** Stores `v` under `k`, replacing any previous value. */
    method Put(k: string, v: V)
      modifies this
      ensures entries == old(entries)[k := v]
    {
      entries := entries[k := v];
    }
  }

  /** Runs the override on `values`, writing its one field in place. */
  method Run<V>(opt: RelationValuesOption<V>, values: RelationValues<V>)
    modifies values
    ensures values.entries == Apply(opt, old(values.entries))
  {
    values.Put(opt.field, opt.value);
  }

  /** One insert statement the manager issued: the relation and the field values. */
  datatype InsertStatement<V> = InsertStatement(table: string, values: map<string, V>)

  /**
   * The database, seen through the insert statements it receives. Whether an
   * insert fails is decided by `answer`, from the statements it received
   * before and the new statement; the model does not look inside it.
   */
  class Database<V> {
    var log: seq<InsertStatement<V>>
    const answer: (seq<InsertStatement<V>>, InsertStatement<V>) -> Option<InsertError>

    constructor (answer: (seq<InsertStatement<V>>, InsertStatement<V>) -> Option<InsertError>)
      ensures log == [] && this.answer == answer
    {
      log := [];
      this.answer := answer;
    }

    /** Executes one insert statement; `err` is the database's error, if any. */
    method Insert(table: string, values: map<string, V>) returns (err: Option<InsertError>)
      modifies this
      ensures log == old(log) + [InsertStatement(table, values)]
      ensures err == answer(old(log), InsertStatement(table, values))
    {
      err := answer(log, InsertStatement(table, values));
      log := log + [InsertStatement(table, values)];
    }
  }

  /** The fixture manager: a database and the default values of each relation. */
  class Manager<V> {
    const db: Database<V>
    const defaultRelationValues: map<string, RelationValues<V>>

    /** The default table, as the values its maps currently hold. */
    ghost function Defaults(): (d: map<string, map<string, V>>)
      reads defaultRelationValues.Values
      ensures d.Keys == defaultRelationValues.Keys
    {
      map r | r in defaultRelationValues :: defaultRelationValues[r].entries
    }

    constructor (db: Database<V>, defaultValues: map<string, RelationValues<V>>)
      ensures this.db == db && defaultRelationValues == defaultValues
    {
      this.db := db;
      defaultRelationValues := defaultValues;
    }

    /**
     * A fresh copy of the default values of `relationName`, or a fatal error
     * when the relation has none. The stored defaults are not changed.
     */
    method GetDefaultRelationValues(relationName: string) returns (res: Result<RelationValues<V>, Fatal>)
      ensures Defaults() == old(Defaults())
      ensures res.Failure? <==> relationName !in Defaults()
      ensures res.Failure? ==> res.error == NoDefaultValues(relationName)
      ensures res.Success? ==> fresh(res.value) && res.value.entries == Defaults()[relationName]
    {
      if relationName !in defaultRelationValues {
        return Failure(NoDefaultValues(relationName));
      }
      var defaultValue := defaultRelationValues[relationName];
      var values := new RelationValues();
      var remaining := defaultValue.entries.Keys;
      while remaining != {}
        invariant remaining <= defaultValue.entries.Keys
        invariant values.entries.Keys == defaultValue.entries.Keys - remaining
        invariant forall k :: k in values.entries ==> values.entries[k] == defaultValue.entries[k]
        decreases remaining
      {
        var k :| k in remaining;
        values.Put(k, defaultValue.entries[k]);
        remaining := remaining - {k};
      }
      return Success(values);
    }

    /**
     * The default values of `relationName` with the overrides `opts` run on
     * them in order, or a fatal error when the relation has no defaults.
     */
    method ResolveValues(relationName: string, opts: seq<RelationValuesOption<V>>)
      returns (res: Result<RelationValues<V>, Fatal>)
      ensures Defaults() == old(Defaults())
      ensures res.Failure? ==> Resolve(Defaults(), relationName, opts) == Failure(res.error)
      ensures res.Success? ==>
                fresh(res.value) && Resolve(Defaults(), relationName, opts) == Success(res.value.entries)
    {
      res := GetDefaultRelationValues(relationName);
      if res.Failure? {
        return;
      }
      var defaultVal := res.value;
      for i := 0 to |opts|
        invariant fresh(defaultVal)
        invariant defaultVal.entries == ApplyAll(Defaults()[relationName], opts[..i])
      {
        Run(opts[i], defaultVal);
        assert opts[..i + 1][..i] == opts[..i];
      }
      assert opts[..|opts|] == opts;
    }

    /**
     * Inserts the resolved values of `tableName` into the database. An unknown
     * relation aborts before any insert; otherwise exactly one insert of the
     * resolved values is issued, and its error aborts naming the table.
     */
    method Create(tableName: string, opts: seq<RelationValuesOption<V>>) returns (outcome: Outcome<Fatal>)
      modifies db
      ensures Defaults() == old(Defaults())
      ensures Resolve(Defaults(), tableName, opts).Failure? ==>
                outcome == Fail(Resolve(Defaults(), tableName, opts).error) && db.log == old(db.log)
      ensures Resolve(Defaults(), tableName, opts).Success? ==>
                var stmt := InsertStatement(tableName, Resolve(Defaults(), tableName, opts).value);
                && db.log == old(db.log) + [stmt]
                && outcome == match db.answer(old(db.log), stmt)
                              case None => Pass
                              case Some(err) => Fail(CreateFailed(tableName, err))
    {
      var values := ResolveValues(tableName, opts);
      if values.Failure? {
        return Fail(values.error);
      }
      var err := db.Insert(tableName, values.value.entries);
      if err.Some? {
        return Fail(CreateFailed(tableName, err.value));
      }
      return Pass;
    }
  }
}

/** A client: the users fixture, created once with its defaults and once with another id. */
module Scenario {
  import opened Wrappers
  import opened DbManager

  method CreateUsers(db: Database<string>)
    modifies db
  {
    var users := new RelationValues();
    users.Put("id", "u1");
    users.Put("name", "Alice");
    var manager := new Manager(db, map["users" := users]);
    var start := db.log;

    var first := manager.Create("users", []);
    assert db.log == start + [InsertStatement("users", map["id" := "u1", "name" := "Alice"])];

    var second := manager.Create("users", [SetFieldValue("id", "u2")]);
    assert users.entries == map["id" := "u1", "name" := "Alice"];
    var overridden := ApplyAll(map["id" := "u1", "name" := "Alice"], [SetFieldValue("id", "u2")]);
    assert overridden == map["id" := "u2", "name" := "Alice"] by {
      assert [SetFieldValue("id", "u2")][..0] == [];
    }
    assert db.log[|db.log| - 1] == InsertStatement("users", map["id" := "u2", "name" := "Alice"]);

    var missing := manager.Create("orders", []);
    assert missing == Fail(NoDefaultValues("orders"));
  }
}
