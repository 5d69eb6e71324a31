/**
 * The employee access object (dao/funcionario_dao.py): the generic access
 * object fixed to the table `funcionario`, with `from_dict` and `to_dict` as
 * its conversions and `cpf` as the key column of its three forwarders.
 */
module FuncionarioDao {
  import opened Values
  import opened FuncionarioModel
  import BaseDao

  type Client = BaseDao.Request -> BaseDao.Response

  const Table: string := "funcionario"

  /** `FuncionarioDAO.to_model`. */
  function ToModel(data: Row): Option<Record> {
    Some(FromDict(data))
  }

  /** `FuncionarioDAO.to_dict`. */
  function ToDictOf(model: Record): Option<Row> {
    Some(ToDict(model))
  }

  /**
   * `FuncionarioDAO(client)`: the generic object on table `funcionario`, whose
   * conversions are exactly `from_dict` and `to_dict` and never raise.
   */
  function Instance(): (dao: BaseDao.Dao<Record>)
    ensures dao.table == "funcionario"
    ensures forall row :: dao.toModel(row) == Some(FromDict(row))
    ensures forall f :: dao.toDict(f) == Some(ToDict(f))
  {
    BaseDao.Dao(Table, ToModel, ToDictOf)
  }

  /** The nine keys an update by CPF sends. */
  const UpdateKeys: set<string> :=
    {"pnome", "unome", "data_nasc", "endereco", "salario", "sexo",
     "cpf_supervisor", "numero_departamento", "updated_at"}

  /**
   * `create` on this object inserts all eleven serialised keys, `cpf` and a
   * possibly-None `created_at` included, and answers `from_dict` of the first
   * returned row.
   */
  lemma CreateSendsElevenKeys(client: Client, f: Record)
    ensures var resp := client(BaseDao.Insert("funcionario", ToDict(f)));
      BaseDao.Create(Instance(), client, f) ==
        (if BaseDao.HasRows(resp) then Some(FromDict(BaseDao.FirstRow(resp))) else None)
    ensures ToDict(f).Keys == Keys && |ToDict(f)| == 11
  {
    var d := ToDict(f);
    assert Instance().toDict(f) == Some(d);
    assert |d| == |d.Keys| == 11 by { KeysCount(); }
  }

  lemma KeysCount()
    ensures |Keys| == 11 && |UpdateKeys| == 9
  {
  }

  /**
   * The payload of `update_by_cpf` is `to_dict` without `cpf` and
   * `created_at`: exactly the nine other keys, each with its `to_dict` value.
   */
  lemma UpdateByCpfSendsNineKeys(f: Record)
    ensures BaseDao.UpdatePayload(Instance(), "cpf", f) == Some(ToDict(f) - {"cpf", "created_at"})
    ensures (ToDict(f) - {"cpf", "created_at"}).Keys == UpdateKeys
    ensures |ToDict(f) - {"cpf", "created_at"}| == 9
  {
    var dao := Instance();
    var d := ToDict(f);
    assert dao.toDict(f) == Some(d);
    var p := BaseDao.UpdatePayload(dao, "cpf", f).value;
    assert p.Keys == d.Keys - {"cpf", "created_at"};
    assert p == d - {"cpf", "created_at"};
    NineKeys(d);
  }

  lemma NineKeys(d: Row)
    requires d.Keys == Keys
    ensures (d - {"cpf", "created_at"}).Keys == UpdateKeys
    ensures |d - {"cpf", "created_at"}| == 9
  {
    var p := d - {"cpf", "created_at"};
    assert p.Keys == Keys - {"cpf", "created_at"} == UpdateKeys;
    KeysCount();
    assert |p| == |p.Keys|;
  }

  /** `read_by_cpf(c)`: `read('cpf', c)`, which finds a record exactly when the store returns a row. */
  function ReadByCpf(client: Client, cpf: Value): (r: Option<Record>)
    ensures r == BaseDao.Read(Instance(), client, "cpf", cpf)
    ensures var resp := client(BaseDao.SelectEq("funcionario", "cpf", cpf));
            && (r.Some? <==> BaseDao.HasRows(resp))
            && (r.Some? ==> r.value == FromDict(BaseDao.FirstRow(resp)))
  {
    BaseDao.Read(Instance(), client, "cpf", cpf)
  }

  /**
   * `update_by_cpf(c, f)`: `update('cpf', c, f)`; the row is selected by `c`
   * and the nine-key payload is sent, and a record comes back exactly when
   * the store returns a row.
   */
  function UpdateByCpf(client: Client, cpf: Value, f: Record): (r: Option<Record>)
    ensures r == BaseDao.Update(Instance(), client, "cpf", cpf, f)
    ensures var resp := client(BaseDao.UpdateEq("funcionario", ToDict(f) - {"cpf", "created_at"},
                                                "cpf", cpf));
            && (r.Some? <==> BaseDao.HasRows(resp))
            && (r.Some? ==> r.value == FromDict(BaseDao.FirstRow(resp)))
  {
    UpdateByCpfSendsNineKeys(f);
    BaseDao.Update(Instance(), client, "cpf", cpf, f)
  }

  /**
   * The model's own `cpf` and `created_at` never reach the store: changing
   * them does not change the outcome of `update_by_cpf`.
   */
  lemma UpdateByCpfIgnoresKeyAndCreation(client: Client, cpf: Value, f: Record, newCpf: Value,
                                         newCreatedAt: Value)
    ensures UpdateByCpf(client, cpf, f.With(Cpf, newCpf).With(CreatedAt, newCreatedAt)) ==
            UpdateByCpf(client, cpf, f)
  {
    var g := f.With(Cpf, newCpf).With(CreatedAt, newCreatedAt);
    ToDictOutsideKeyAndCreation(g, f);
    BaseDao.UpdateDependsOnlyOnPayload(Instance(), client, "cpf", cpf, g, f);
  }

  /** `delete_by_cpf(c)`: `delete('cpf', c)`, true whenever the client does not raise. */
  function DeleteByCpf(client: Client, cpf: Value): (ok: bool)
    ensures ok == BaseDao.Delete(Instance(), client, "cpf", cpf)
    ensures ok <==> !client(BaseDao.DeleteEq("funcionario", "cpf", cpf)).Raised?
  {
    BaseDao.Delete(Instance(), client, "cpf", cpf)
  }

  /** Deleting a CPF that matches no row still reports success. */
  lemma DeleteUnknownCpfSucceeds(client: Client, cpf: Value)
    requires client(BaseDao.DeleteEq("funcionario", "cpf", cpf)) == BaseDao.Ok(Some([]))
    ensures DeleteByCpf(client, cpf)
  {
  }

  /** A store that answers an insert with the row it was sent. */
  ghost predicate EchoesInserts(client: Client) {
    forall p :: client(BaseDao.Insert("funcionario", p)) == BaseDao.Ok(Some([p]))
  }

  /**
   * Against a store that echoes inserts, `create(f)` returns `f` with its
   * dates and timestamps as ISO text; so it returns `f` itself exactly when
   * `f` holds nothing that `to_dict` converts. Nothing is said here about a
   * later read.
   */
  lemma CreateOnEchoingStore(client: Client, f: Record)
    requires EchoesInserts(client)
    ensures BaseDao.Create(Instance(), client, f) == Some(Textual(f))
    ensures BaseDao.Create(Instance(), client, f) == Some(f) <==> Unconverted(f)
  {
    assert client(BaseDao.Insert("funcionario", ToDict(f))) == BaseDao.Ok(Some([ToDict(f)]));
    FromDictToDict(f);
    RoundTripExactly(f);
  }
}
