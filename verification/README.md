# dbmanager: resolving fixture values

A Dafny model of the test-fixture helper in `manager.go`. A manager holds a
table of default field values for each relation (table). `Create(table, opts...)`
works in three steps:

1. It copies the relation's defaults into a fresh map.
2. It runs the overrides `opts` on the copy, in order. Each override is made by
   `SetFieldValue(field, value)` and writes one field.
3. It inserts the resulting values into the table.

A relation with no defaults, or an insert that fails, aborts the test through
`t.Fatalf`.

How the source's pieces are modelled:

- A Go map is a reference, so `RelationValues` is a class whose `entries`
  field the methods update in place. The default table is a constant map from
  relation names to such objects. This makes "the stored defaults never
  change" a frame property of the methods (`Defaults() == old(Defaults())`).
  It is not something a value-typed model would get for free.
- The copy loop (`for k, v := range defaultValue`) becomes a `while` loop. It
  takes the keys in an arbitrary order and puts them one by one into a fresh
  object.
- The override loop becomes a `for` loop. Its invariant says the copy equals
  `ApplyAll(defaults, opts[..i])`.
- An override is the value `SetFieldValue(field, value)`. `Run` performs its
  write on a `RelationValues` object, and `Apply` is that write as a function
  on maps.
- A fatal test error stops the test goroutine, so nothing after it runs. The
  model returns a `Failure`/`Fail` value carrying a `Fatal` reason at that
  point.
- The insert statement is an abstract `Database.Insert`. It records the
  statement in `log`. Whether it fails is decided by the constant `answer`,
  from the earlier statements and the new one.
- Field values (`interface{}`) are the type parameter `V`.

The library's design describes a transactional "check, then insert"
operation. `manager.go` contains no such code: `Create` always issues one
insert with `ON CONFLICT DO NOTHING`. The model follows the code.

## Model

| member | source | states |
|---|---|---|
| `DbManager.Apply` | manager.go:24-27 | An override writes its value under its field. The field joins the key set, and every other key keeps its value. |
| `DbManager.Run` | manager.go:24-27 | Running an override on a value set updates that map in place, exactly as `Apply` describes. |
| `DbManager.RepeatedOverrideIsIdempotent` | manager.go:24-27 | Running `SetFieldValue(f, v)` twice in a row gives the same values as running it once, after any earlier overrides. |
| `DbManager.ApplyAll` | manager.go:70-72 | After overrides run in order, the keys are the starting keys plus every field some override names. |
| `DbManager.ApplyAllConcat` | manager.go:70-72 | Overrides run strictly in sequence: running `a` then `b` is the same as running `a + b`. |
| `DbManager.LastWriteWins` | manager.go:70-72 | When several overrides set one field, the last of them decides that field's value. |
| `DbManager.UntouchedFieldKeepsDefault` | manager.go:84-87 | A default field that no override names keeps its default value. |
| `DbManager.Resolve` | manager.go:68-88 | A relation missing from the table gives the fatal error `NoDefaultValues` for it, and no value set. Otherwise the keys are the defaults' keys plus the overridden fields. With no overrides the result equals the stored defaults. |
| `DbManager.RelationValues.constructor` | manager.go:84 | `make(RelationValues)` gives an empty map. |
| `DbManager.RelationValues.Put` | manager.go:86 | A map write sets one key and changes nothing else. |
| `DbManager.Database.Insert` | manager.go:54 | The abstract insert appends exactly one statement (table and values) to the log and returns the database's answer for it. |
| `DbManager.Manager.Defaults` | manager.go:34 | The default table, read as plain maps, has the same relation names as the stored table. |
| `DbManager.Manager.constructor` | manager.go:38-45 | `New` stores the database handle and the default table as given. |
| `DbManager.Manager.GetDefaultRelationValues` | manager.go:78-89 | An unknown relation gives `NoDefaultValues`. A known one gives a freshly allocated map equal to its stored defaults. The stored defaults are unchanged. |
| `DbManager.Manager.ResolveValues` | manager.go:68-75 | The result is the fatal error, or a freshly allocated map equal to the defaults with the overrides applied in order, as `Resolve` specifies. The stored defaults are unchanged, including when overrides are applied. |
| `DbManager.Manager.Create` | manager.go:49-58 | An unknown relation aborts with `NoDefaultValues` and issues no insert. Otherwise exactly one insert of exactly the resolved values into `tableName` is issued. An insert error aborts with `CreateFailed`, which names the table. The stored defaults are unchanged. |

## Left out

- The squirrel query builder (`insertBuilder`, `SetMap`, the `ON CONFLICT DO NOTHING` suffix, `$n` placeholders, `Query`): it is a foreign library. The insert is the abstract `Database.Insert`, and whether a conflict is ignored is part of its unmodelled `answer`.
- `*sql.DB` and the database round trip: these are I/O, and they are reduced to the statement log and `answer`.
- `*testing.T` and the text of the `Fatalf` messages: a fatal error is the `Fatal` value, which keeps the relation or table name and the insert error but not the formatted text.
- Override functions that callers write by hand: `RelationValuesOption` is an exported Go function type, so a caller may pass any closure. The model covers only overrides made by `SetFieldValue`.
- The order in which Go ranges over a map in the copy loop: the loop picks keys in an arbitrary order, and the result does not depend on it.
- A `nil` map stored as a relation's defaults: Go reads it as empty. The model stores an object for every relation, so the empty case is an object with no entries.
- The `DBManager` interface (manager.go:12-14) only names `Create`, which is modelled.
