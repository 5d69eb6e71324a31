/**
 * The generic data-access object (dao/base_dao.py): five operations over a
 * named table of a remote store, each one remote call wrapped in a
 * try/except that turns every exception into None, [] or false.
 *
 * The remote client is a parameter `client: Request -> Response`: the
 * request says which table, payload and filter the operation sends, and the
 * response is whatever the store answers to that single call, `Raised` when
 * the client raises. What the store does with the request is not modelled.
 */
module BaseDao {
  import opened Values

  /** The call an operation issues through the client's builder chain. */
  datatype Request =
    | Insert(table: string, payload: Row)                                   // .insert(data)
    | SelectEq(table: string, column: string, value: Value)                 // .select('*').eq(pk, value)
    | SelectAll(table: string)                                              // .select('*')
    | UpdateEq(table: string, payload: Row, column: string, value: Value)   // .update(data).eq(pk, value)
    | DeleteEq(table: string, column: string, value: Value)                 // .delete().eq(pk, value)

  /** The outcome of `execute()`: the response's `data` (possibly None), or an exception. */
  datatype Response = Ok(data: Option<seq<Row>>) | Raised

  /** `response.data and len(response.data) > 0`. */
  predicate HasRows(resp: Response) {
    resp.Ok? && resp.data.Some? && |resp.data.value| > 0
  }

  /** The first returned row. */
  function FirstRow(resp: Response): Row
    requires HasRows(resp)
  {
    resp.data.value[0]
  }

  /**
   * One concrete access object: its table name and its two conversions. A
   * conversion that raises is modelled by returning None.
   */
  datatype Dao<!T> = Dao(table: string, toModel: Row -> Option<T>, toDict: T -> Option<Row>)

  /** `self.to_model(response.data[0])` when there is a first row, otherwise None. */
  function FirstModel<T>(dao: Dao<T>, resp: Response): Option<T> {
    if HasRows(resp) then dao.toModel(FirstRow(resp)) else None
  }

  /** `BaseDAO.create`: insert `to_dict(model)` and convert the first returned row. */
  function Create<T>(dao: Dao<T>, client: Request -> Response, model: T): (r: Option<T>)
    ensures dao.toDict(model).None? ==> r.None?
    ensures dao.toDict(model).Some? ==>
              var resp := client(Insert(dao.table, dao.toDict(model).value));
              && (!HasRows(resp) ==> r.None?)
              && (HasRows(resp) ==> r == dao.toModel(FirstRow(resp)))
  {
    match dao.toDict(model)
    case None => None
    case Some(data) => FirstModel(dao, client(Insert(dao.table, data)))
  }

  /** `BaseDAO.read`: select the rows whose column `pk` equals `value`, convert the first. */
  function Read<T>(dao: Dao<T>, client: Request -> Response, pk: string, value: Value): (r: Option<T>)
    ensures var resp := client(SelectEq(dao.table, pk, value));
            && (!HasRows(resp) ==> r.None?)
            && (HasRows(resp) ==> r == dao.toModel(FirstRow(resp)))
  {
    FirstModel(dao, client(SelectEq(dao.table, pk, value)))
  }

  /**
   * `[self.to_model(item) for item in rows]`: every row converted, in order,
   * or None as soon as one conversion raises.
   */
  function ConvertAll<T>(toModel: Row -> Option<T>, rows: seq<Row>): (r: Option<seq<T>>)
    ensures r.Some? <==> forall i :: 0 <= i < |rows| ==> toModel(rows[i]).Some?
    ensures r.Some? ==> |r.value| == |rows|
    ensures r.Some? ==> forall i :: 0 <= i < |rows| ==> toModel(rows[i]) == Some(r.value[i])
  {
    if rows == [] then Some([])
    else
      match (toModel(rows[0]), ConvertAll(toModel, rows[1..]))
      case (Some(m), Some(ms)) => Some([m] + ms)
      case _ => None
  }

  /** Every row of the response converts without raising. */
  ghost predicate AllConvert<T>(dao: Dao<T>, resp: Response)
    requires resp.Ok? && resp.data.Some?
  {
    forall i :: 0 <= i < |resp.data.value| ==> dao.toModel(resp.data.value[i]).Some?
  }

  /**
   * `BaseDAO.read_all`: every row of the table converted in response order;
   * `[]` when there are no rows, when the client raises, or when any single
   * conversion raises: never a partial list.
   */
  function ReadAll<T>(dao: Dao<T>, client: Request -> Response): (r: seq<T>)
    ensures var resp := client(SelectAll(dao.table));
            resp.Ok? && resp.data.Some? && AllConvert(dao, resp) ==>
              && |r| == |resp.data.value|
              && forall i :: 0 <= i < |r| ==> dao.toModel(resp.data.value[i]) == Some(r[i])
    ensures var resp := client(SelectAll(dao.table));
            !(resp.Ok? && resp.data.Some? && AllConvert(dao, resp)) ==> r == []
  {
    var resp := client(SelectAll(dao.table));
    if resp.Raised? || resp.data.None? || resp.data.value == [] then []
    else
      match ConvertAll(dao.toModel, resp.data.value)
      case Some(models) => models
      case None => []
  }

  /** `data.pop(key, None)`: remove `key`, or leave the dictionary as it is when absent. */
  function Pop(data: Row, key: string): Row {
    if key in data then data - {key} else data
  }

  /**
   * The payload `update` sends: `to_dict(model)` without the key column `pk`
   * and without `created_at`, every other entry unchanged; None when
   * `to_dict` raises.
   */
  function UpdatePayload<T>(dao: Dao<T>, pk: string, model: T): (p: Option<Row>)
    ensures p.Some? <==> dao.toDict(model).Some?
    ensures p.Some? ==> p.value.Keys == dao.toDict(model).value.Keys - {pk, "created_at"}
    ensures p.Some? ==> forall k :: k in p.value ==> p.value[k] == dao.toDict(model).value[k]
  {
    match dao.toDict(model)
    case None => None
    case Some(data) => Some(Pop(Pop(data, pk), "created_at"))
  }

  /**
   * `BaseDAO.update`: send the stripped payload to the rows whose column `pk`
   * equals `value` (the model's own key is never sent) and convert the first
   * returned row.
   */
  function Update<T>(dao: Dao<T>, client: Request -> Response, pk: string, value: Value, model: T)
    : (r: Option<T>)
    ensures UpdatePayload(dao, pk, model).None? ==> r.None?
    ensures UpdatePayload(dao, pk, model).Some? ==>
              var resp := client(UpdateEq(dao.table, UpdatePayload(dao, pk, model).value, pk, value));
              && (!HasRows(resp) ==> r.None?)
              && (HasRows(resp) ==> r == dao.toModel(FirstRow(resp)))
  {
    match UpdatePayload(dao, pk, model)
    case None => None
    case Some(data) => FirstModel(dao, client(UpdateEq(dao.table, data, pk, value)))
  }

  /**
   * `BaseDAO.delete`: true exactly when the client call does not raise,
   * whatever the response says about matched rows.
   */
  function Delete<T>(dao: Dao<T>, client: Request -> Response, pk: string, value: Value): (ok: bool)
    ensures ok <==> !client(DeleteEq(dao.table, pk, value)).Raised?
  {
    match client(DeleteEq(dao.table, pk, value))
    case Raised => false
    case Ok(_) => true
  }

  /**
   * `update` depends on the model only through its payload: two models whose
   * serialisations agree outside the key column and `created_at` give the
   * same result.
   */
  lemma UpdateDependsOnlyOnPayload<T>(dao: Dao<T>, client: Request -> Response, pk: string,
                                      value: Value, m1: T, m2: T)
    requires dao.toDict(m1).Some? && dao.toDict(m2).Some?
    requires dao.toDict(m1).value - {pk, "created_at"} == dao.toDict(m2).value - {pk, "created_at"}
    ensures Update(dao, client, pk, value, m1) == Update(dao, client, pk, value, m2)
  {
    var p1 := UpdatePayload(dao, pk, m1).value;
    var p2 := UpdatePayload(dao, pk, m2).value;
    assert p1 == dao.toDict(m1).value - {pk, "created_at"};
    assert p2 == dao.toDict(m2).value - {pk, "created_at"};
  }
}
