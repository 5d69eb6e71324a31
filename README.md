# Funcionario records and their data-access objects, in Dafny

This project models the employee (`Funcionario`) entity of a small Python
application backed by a remote PostgreSQL-style table store, and the
data-access objects that move it to and from the `funcionario` table:

- `values.dfy` (module `Values`): the loosely typed values a record
  dictionary holds. This covers None, text, integers, floats, `date` and
  `datetime` objects, and the ISO text that `isoformat()` makes from them.
  It also models `dict.get` and the Python truthiness and `isinstance` tests
  the serialiser applies.
- `funcionario.dfy` (module `FuncionarioModel`): the eleven-field entity.
  - As a value, it is the `Record` datatype. As the mutable object, it is the
    `Funcionario` class with eleven fields, nine tracked setters and the
    `updated_at` setter.
  - `to_dict` is modelled step by step. `asdict` gives the field-name/value
    pairs. `lstrip('_')` and the dictionary comprehension rebuild the keys,
    and a later pair wins when two stripped keys collide. Then the three
    conditional ISO conversions are applied.
  - `from_dict` is modelled as eleven positional `get`s.
- `base_dao.dfy` (module `BaseDao`): the generic access object.
  - It covers `create`, `read`, `read_all`, `update` and `delete` over any
    entity type.
  - The remote client is a function from the request an operation builds to
    the response of `execute()`. The response is either the returned rows or
    `Raised`.
  - A conversion that raises is modelled as a conversion returning None.
- `funcionario_dao.dfy` (module `FuncionarioDao`): the generic object fixed to
  table `funcionario` with `from_dict` and `to_dict` as its conversions. It
  also has the three CPF-keyed forwarders.

Three consequences of the code that are easy to overlook:

- **The round trip changes dates.** `to_dict` turns a `date` birth date and
  `datetime` timestamps into ISO text, and `from_dict` does not parse them back.
  - `from_dict(to_dict(f))` is `f` with those fields as ISO text
    (`FromDictToDict`).
  - So it equals `f` exactly when `f` holds nothing that `to_dict` converts
    (`RoundTripExactly`).
  - A `date` birth date never survives the round trip (`RoundTripLosesBirthDate`).
- **`updated_at` is not monotonic.** The setters stamp it with the clock
  reading and the `updated_at` setter accepts any value. The model takes the
  clock reading as a parameter and claims no ordering.
- **`from_dict` ignores the defaults.** An absent key becomes None because
  `from_dict` passes `data.get(key)`. So the dataclass defaults (`'Macau-Rn'`,
  `1518.01`, `'f'`) are never used there (`FromDictIgnoresDefaults`).

## Model

| member | source | states |
|---|---|---|
| FuncionarioModel.Record.With | models/funcionario.py:8-18 | replacing one attribute of a record sets that attribute and leaves the other ten unchanged |
| FuncionarioModel.LStripUnderscoreSpec | models/funcionario.py:25 | `lstrip('_')` returns a suffix of the key; everything removed was `_`, and the result does not start with `_` |
| FuncionarioModel.StripKeysHasEveryKey | models/funcionario.py:25 | the comprehension's dictionary holds the stripped key of every item |
| FuncionarioModel.StripKeysHasNoOtherKey | models/funcionario.py:25 | every key of the comprehension's dictionary is the stripped key of some item |
| FuncionarioModel.StripKeysLastWins | models/funcionario.py:25 | under a stripped key, the dictionary holds the value of the last item with that stripped key |
| FuncionarioModel.StripAsDictItems | models/funcionario.py:23-25 | after `asdict` and key stripping, the dictionary has exactly the eleven underscore-free keys, each with its field's value |
| FuncionarioModel.StampToIso | models/funcionario.py:27-30 | a timestamp key is rewritten to ISO text exactly when it holds a datetime; no key is added or removed and other keys are unchanged |
| FuncionarioModel.DateToIso | models/funcionario.py:32-33 | `data_nasc` is rewritten to ISO text exactly when it holds a date that is not a datetime; other keys are unchanged |
| FuncionarioModel.IsoRewrites | models/funcionario.py:27-33 | the three rewrites applied in order turn each field's value into its serialised form |
| FuncionarioModel.ToDict | models/funcionario.py:21-34 | `to_dict` has exactly the eleven keys. Under each key is the field value: as ISO text for a datetime timestamp or a plain-date birth date, unchanged otherwise |
| FuncionarioModel.FromDict | models/funcionario.py:37-51 | `from_dict` gives each field the dictionary's value under its key, or None when the key is absent |
| FuncionarioModel.FromDictIgnoresDefaults | models/funcionario.py:44-46 | absent `endereco`, `salario` and `sexo` become None, not the dataclass defaults of lines 12-14 |
| FuncionarioModel.Textual | models/funcionario.py:27-33 | the record as the ISO rewrites leave it: every field in its serialised form |
| FuncionarioModel.ToDictFromDict | models/funcionario.py:21-51 | `to_dict(from_dict(d))` is `d` cut to the eleven keys, absent keys becoming None, exactly when `d` holds nothing that `to_dict` converts (no plain date under `data_nasc`, no datetime under either timestamp) |
| FuncionarioModel.FromDictToDict | models/funcionario.py:21-51 | `from_dict(to_dict(f))` is `f` with its dates and timestamps as ISO text |
| FuncionarioModel.FromDictToDictKeepsPlainFields | models/funcionario.py:21-51 | the round trip keeps every field other than `data_nasc`, `created_at` and `updated_at` |
| FuncionarioModel.RoundTripExactly | models/funcionario.py:21-51 | a record survives `from_dict(to_dict(f))` unchanged exactly when its birth date is not a plain date and neither timestamp is a datetime |
| FuncionarioModel.RoundTripLosesBirthDate | models/funcionario.py:32-33 | a record whose birth date is a date object does not survive the round trip; its birth date comes back as ISO text |
| FuncionarioModel.ToDictOutsideKeyAndCreation | models/funcionario.py:21-34 | records that differ only in `cpf` and `created_at` have equal serialisations once those two keys are removed |
| FuncionarioModel.Bumped | models/funcionario.py:66-141 | a tracked setter changes its own field to the new value and `updated_at` to the clock reading, and nothing else |
| FuncionarioModel.BumpedToDict | models/funcionario.py:66-141 | after a tracked setter, `to_dict` differs only at the field's key and at `updated_at`, which is the clock reading in ISO text |
| FuncionarioModel.Funcionario.constructor | models/funcionario.py:5-18 | the dataclass constructor stores its eleven arguments; the omitted ones are `'Macau-Rn'`, `1518.01`, `'f'` and four Nones |
| FuncionarioModel.Funcionario.FromDictObject | models/funcionario.py:37-51 | `from_dict` builds a new object whose state is `FromDict(d)` |
| FuncionarioModel.Funcionario.SetCpf | models/funcionario.py:66-69 | sets `cpf`, stamps `updated_at` with the clock and changes nothing else |
| FuncionarioModel.Funcionario.SetPnome | models/funcionario.py:75-78 | sets `pnome`, stamps `updated_at` with the clock and changes nothing else |
| FuncionarioModel.Funcionario.SetUnome | models/funcionario.py:84-87 | sets `unome`, stamps `updated_at` with the clock and changes nothing else |
| FuncionarioModel.Funcionario.SetSalario | models/funcionario.py:93-96 | sets `salario`, stamps `updated_at` with the clock and changes nothing else |
| FuncionarioModel.Funcionario.SetDataNasc | models/funcionario.py:102-105 | sets `data_nasc`, stamps `updated_at` with the clock and changes nothing else |
| FuncionarioModel.Funcionario.SetEndereco | models/funcionario.py:111-114 | sets `endereco`, stamps `updated_at` with the clock and changes nothing else |
| FuncionarioModel.Funcionario.SetSexo | models/funcionario.py:120-123 | sets `sexo`, stamps `updated_at` with the clock and changes nothing else |
| FuncionarioModel.Funcionario.SetCpfSupervisor | models/funcionario.py:129-132 | sets `cpf_supervisor`, stamps `updated_at` with the clock and changes nothing else |
| FuncionarioModel.Funcionario.SetNumeroDepartamento | models/funcionario.py:138-141 | sets `numero_departamento`, stamps `updated_at` with the clock and changes nothing else |
| FuncionarioModel.Funcionario.SetUpdatedAt | models/funcionario.py:151-153 | the `updated_at` setter stores any value as given, reads no clock and changes no other field |
| BaseDao.Create | dao/base_dao.py:32-51 | `create` inserts `to_dict(model)` and returns the first returned row converted. It returns None when there are no rows, when the client raises, or when either conversion raises |
| BaseDao.Read | dao/base_dao.py:54-62 | `read` selects by `pk == value` and returns the first row converted, or None when there is no row, the client raises or the conversion raises |
| BaseDao.ConvertAll | dao/base_dao.py:69 | the list comprehension succeeds exactly when every row converts, and then yields every row's model in order |
| BaseDao.ReadAll | dao/base_dao.py:65-73 | `read_all` returns every row converted in order when every conversion succeeds. Otherwise it returns `[]`, never a partial list |
| BaseDao.UpdatePayload | dao/base_dao.py:89-93 | the update payload is `to_dict(model)` without the key column and `created_at`, with every other entry unchanged |
| BaseDao.Update | dao/base_dao.py:76-102 | `update` sends that payload to the rows with `pk == value` and returns the first returned row converted, or None |
| BaseDao.Delete | dao/base_dao.py:105-121 | `delete` is true exactly when the client does not raise, whatever rows matched |
| BaseDao.UpdateDependsOnlyOnPayload | dao/base_dao.py:89-95 | two models that serialise alike outside the key column and `created_at` give the same `update` result |
| FuncionarioDao.Instance | dao/funcionario_dao.py:8-15 | the employee access object works on table `funcionario` with `from_dict` and `to_dict` as conversions that never raise |
| FuncionarioDao.CreateSendsElevenKeys | dao/funcionario_dao.py:14-15 | `create` on an employee inserts all eleven serialised keys and returns `from_dict` of the first row, or None |
| FuncionarioDao.UpdateByCpfSendsNineKeys | dao/funcionario_dao.py:22-24 | an update by CPF sends exactly the nine keys other than `cpf` and `created_at`, with their `to_dict` values |
| FuncionarioDao.ReadByCpf | dao/funcionario_dao.py:18-20 | `read_by_cpf(c)` is `read('cpf', c)`: a record exactly when the store returns a row, and then `from_dict` of the first row |
| FuncionarioDao.UpdateByCpf | dao/funcionario_dao.py:22-24 | `update_by_cpf(c, f)` is `update('cpf', c, f)`, sending the nine-key payload to the rows with CPF `c` |
| FuncionarioDao.UpdateByCpfIgnoresKeyAndCreation | dao/funcionario_dao.py:22-24 | the model's own `cpf` and `created_at` never reach the store: changing them leaves the result of `update_by_cpf` unchanged |
| FuncionarioDao.DeleteByCpf | dao/funcionario_dao.py:26-28 | `delete_by_cpf(c)` is `delete('cpf', c)`: true exactly when the client does not raise |
| FuncionarioDao.DeleteUnknownCpfSucceeds | dao/funcionario_dao.py:26-28 | deleting a CPF that matches no row still returns true |
| FuncionarioDao.CreateOnEchoingStore | dao/funcionario_dao.py:11-15 | against a store that returns the inserted row, `create(f)` returns `f` with dates as ISO text. It returns `f` itself exactly when `f` holds nothing that `to_dict` converts |

## Left out

- The remote client and the network: the client is a parameter mapping each request to a response. What the store does with inserts, filters and deletes is not modelled. For a store that echoes inserts, only the row `create` itself returns is stated (`CreateOnEchoingStore`). Nothing relates a later `read` or `read_by_cpf` to an earlier `create`.
- The error messages printed by the `except` branches: output only, with no effect on results.
- `datetime.now()`: the setters take the clock reading as a parameter `now`. No ordering between successive readings is assumed or claimed.
- The text produced by `isoformat()`: it is the opaque constructors `IsoDate` and `IsoDateTime`. They are distinct from every `Str` value, even one with the same characters, and timezone-aware datetimes are not distinguished.
- Floating-point arithmetic on `salario`: floats are only ever copied, so they are kept as reals.
- `Funcionario.__str__`: string formatting for display only.
- The property getters: they read a field, which in the model is a plain field read. `created_at` having no setter shows in every method's contract keeping it unchanged.
- The `ABC`/`Generic` machinery and the `_client`/`_table_name` attributes: a concrete access object is the `Dao` datatype, holding its table name and its two conversions.
- `except Exception`: an exception outside `Exception` (such as `KeyboardInterrupt`) would propagate; the model's `Raised` stands for the caught exceptions only.
- Object identity: the access objects return `Record` values rather than fresh `Funcionario` objects; `Funcionario.FromDictObject` shows how `from_dict` builds one.
- Python type annotations: nothing in the code checks them, so every field can hold any value.
