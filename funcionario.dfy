/**
 * The employee record (models/funcionario.py): eleven attributes, the
 * serialiser `to_dict`, the deserialiser `from_dict`, and the setters that
 * bump `updated_at`.
 *
 * The record's value is the datatype `Record`; the mutable object is the
 * class `Funcionario`, whose `Snapshot()` is that value.
 */
module FuncionarioModel {
  import opened Values

  /** The attributes of the record, in declaration order. */
  datatype Attr =
    | Cpf | Pnome | Unome | DataNasc | Endereco | Salario | Sexo
    | CpfSupervisor | NumeroDepartamento | CreatedAt | UpdatedAt

  const Attrs: seq<Attr> :=
    [Cpf, Pnome, Unome, DataNasc, Endereco, Salario, Sexo,
     CpfSupervisor, NumeroDepartamento, CreatedAt, UpdatedAt]

  /** The dictionary key of an attribute. */
  function Key(a: Attr): string {
    match a
    case Cpf => "cpf"
    case Pnome => "pnome"
    case Unome => "unome"
    case DataNasc => "data_nasc"
    case Endereco => "endereco"
    case Salario => "salario"
    case Sexo => "sexo"
    case CpfSupervisor => "cpf_supervisor"
    case NumeroDepartamento => "numero_departamento"
    case CreatedAt => "created_at"
    case UpdatedAt => "updated_at"
  }

  /** The dataclass field name as declared: the key behind a leading underscore. */
  function FieldName(a: Attr): string {
    "_" + Key(a)
  }

  /** Every key `to_dict` produces and `from_dict` reads. */
  const Keys: set<string> :=
    {"cpf", "pnome", "unome", "data_nasc", "endereco", "salario", "sexo",
     "cpf_supervisor", "numero_departamento", "created_at", "updated_at"}

  /** Dataclass defaults of `_endereco`, `_salario` and `_sexo`. */
  const DefaultEndereco: Value := Str("Macau-Rn")
  const DefaultSalario: Value := Float(1518.01)
  const DefaultSexo: Value := Str("f")

  /**
   * The value of one record. Python does not enforce the field annotations,
   * so every field holds any `Value` (in particular `from_dict` stores
   * whatever the dictionary holds, or None).
   */
  datatype Record = Record(
    cpf: Value, pnome: Value, unome: Value, dataNasc: Value,
    endereco: Value, salario: Value, sexo: Value,
    cpfSupervisor: Value, numeroDepartamento: Value,
    createdAt: Value, updatedAt: Value)
  {
    /** The field of attribute `a`. */
    function At(a: Attr): Value {
      match a
      case Cpf => cpf
      case Pnome => pnome
      case Unome => unome
      case DataNasc => dataNasc
      case Endereco => endereco
      case Salario => salario
      case Sexo => sexo
      case CpfSupervisor => cpfSupervisor
      case NumeroDepartamento => numeroDepartamento
      case CreatedAt => createdAt
      case UpdatedAt => updatedAt
    }

    /** This record with attribute `a` replaced by `v` and nothing else changed. */
    function With(a: Attr, v: Value): (r: Record)
      ensures r.At(a) == v
      ensures forall b :: b != a ==> r.At(b) == At(b)
    {
      match a
      case Cpf => this.(cpf := v)
      case Pnome => this.(pnome := v)
      case Unome => this.(unome := v)
      case DataNasc => this.(dataNasc := v)
      case Endereco => this.(endereco := v)
      case Salario => this.(salario := v)
      case Sexo => this.(sexo := v)
      case CpfSupervisor => this.(cpfSupervisor := v)
      case NumeroDepartamento => this.(numeroDepartamento := v)
      case CreatedAt => this.(createdAt := v)
      case UpdatedAt => this.(updatedAt := v)
    }
  }

  /** Two records that agree on every attribute are the same record. */
  lemma RecordExtensional(r: Record, s: Record)
    requires forall a :: r.At(a) == s.At(a)
    ensures r == s
  {
    assert r.At(Cpf) == s.At(Cpf) && r.At(Pnome) == s.At(Pnome) && r.At(Unome) == s.At(Unome);
    assert r.At(DataNasc) == s.At(DataNasc) && r.At(Endereco) == s.At(Endereco);
    assert r.At(Salario) == s.At(Salario) && r.At(Sexo) == s.At(Sexo);
    assert r.At(CpfSupervisor) == s.At(CpfSupervisor);
    assert r.At(NumeroDepartamento) == s.At(NumeroDepartamento);
    assert r.At(CreatedAt) == s.At(CreatedAt) && r.At(UpdatedAt) == s.At(UpdatedAt);
  }

  // ---------------------------------------------------------------------
  // to_dict
  // ---------------------------------------------------------------------

  /** `dataclasses.asdict(self).items()`: field names and values in declaration order. */
  function AsDictItems(r: Record): seq<(string, Value)> {
    seq(|Attrs|, i requires 0 <= i < |Attrs| => (FieldName(Attrs[i]), r.At(Attrs[i])))
  }

  /**
   * `s.lstrip('_')`: the longest suffix of `s` that does not start with an
   * underscore, everything before it being underscores.
   */
  function LStripUnderscore(s: string): string {
    if |s| > 0 && s[0] == '_' then LStripUnderscore(s[1..]) else s
  }

  /** `lstrip('_')` removes a prefix of underscores and leaves no leading underscore. */
  lemma {:induction false} LStripUnderscoreSpec(s: string)
    ensures var t := LStripUnderscore(s);
      && |t| <= |s| && t == s[|s| - |t|..]
      && (forall i :: 0 <= i < |s| - |t| ==> s[i] == '_')
      && (t == [] || t[0] != '_')
  {
    if |s| > 0 && s[0] == '_' {
      LStripUnderscoreSpec(s[1..]);
    }
  }

  /**
   * `{key.lstrip('_'): value for key, value in items}`: an item overwrites any
   * earlier item whose stripped key is the same.
   */
  function StripKeys(items: seq<(string, Value)>): Row {
    if items == [] then map[]
    else
      var last := items[|items| - 1];
      StripKeys(items[..|items| - 1])[LStripUnderscore(last.0) := last.1]
  }

  /** The stripped key of the `i`-th item. */
  function StrippedKey(items: seq<(string, Value)>, i: int): string
    requires 0 <= i < |items|
  {
    LStripUnderscore(items[i].0)
  }

  /** No item after the `i`-th has the same stripped key. */
  ghost predicate LastWithStrippedKey(items: seq<(string, Value)>, i: int)
    requires 0 <= i < |items|
  {
    forall j :: i < j < |items| ==> StrippedKey(items, j) != StrippedKey(items, i)
  }

  /** Every stripped key is a key of the comprehension. */
  lemma {:induction false} StripKeysHasEveryKey(items: seq<(string, Value)>, i: int)
    requires 0 <= i < |items|
    ensures StrippedKey(items, i) in StripKeys(items)
  {
    var n := |items| - 1;
    if i < n {
      StripKeysHasEveryKey(items[..n], i);
      assert StrippedKey(items[..n], i) == StrippedKey(items, i);
    }
  }

  /** Every key of the comprehension is the stripped key of some item. */
  lemma {:induction false} StripKeysHasNoOtherKey(items: seq<(string, Value)>, k: string)
    requires k in StripKeys(items)
    ensures exists i :: 0 <= i < |items| && StrippedKey(items, i) == k
  {
    var n := |items| - 1;
    if k != StrippedKey(items, n) {
      StripKeysHasNoOtherKey(items[..n], k);
      var i :| 0 <= i < n && StrippedKey(items[..n], i) == k;
      assert StrippedKey(items, i) == k;
    }
  }

  /** Under each stripped key stands the value of the last item carrying it. */
  lemma {:induction false} StripKeysLastWins(items: seq<(string, Value)>, i: int)
    requires 0 <= i < |items| && LastWithStrippedKey(items, i)
    ensures StrippedKey(items, i) in StripKeys(items)
    ensures StripKeys(items)[StrippedKey(items, i)] == items[i].1
  {
    StripKeysHasEveryKey(items, i);
    var n := |items| - 1;
    if i < n {
      var init := items[..n];
      assert StrippedKey(items, n) != StrippedKey(items, i);
      assert StrippedKey(init, i) == StrippedKey(items, i);
      assert LastWithStrippedKey(init, i) by {
        forall j | i < j < n ensures StrippedKey(init, j) != StrippedKey(init, i) {
          assert StrippedKey(init, j) == StrippedKey(items, j);
        }
      }
      StripKeysHasEveryKey(init, i);
      StripKeysLastWins(init, i);
    }
  }

  /**
   * `if data.get(key) and isinstance(data[key], datetime):
   *  data[key] = data[key].isoformat()`. A datetime is never falsy, so exactly
   * a datetime under `key` is rewritten.
   */
  function StampToIso(data: Row, key: string): (d: Row)
    ensures d.Keys == data.Keys
    ensures forall k :: k in data && k != key ==> d[k] == data[k]
    ensures key in data ==>
              d[key] == if data[key].DateTimeV? then IsoDateTime(data[key].stamp) else data[key]
  {
    var v := Get(data, key);
    if Truthy(v) && IsDateTime(v) then data[key := IsoDateTime(v.stamp)] else data
  }

  /**
   * The birth-date rewrite: only a date that is not a datetime becomes its
   * date-only ISO text.
   */
  function DateToIso(data: Row, key: string): (d: Row)
    ensures d.Keys == data.Keys
    ensures forall k :: k in data && k != key ==> d[k] == data[k]
    ensures key in data ==>
              d[key] == if data[key].DateV? then IsoDate(data[key].date) else data[key]
  {
    var v := Get(data, key);
    if Truthy(v) && IsDate(v) && !IsDateTime(v) then data[key := IsoDate(v.date)] else data
  }

  /**
   * What `to_dict` stores under the key of attribute `a` when the field holds
   * `v`: the timestamps become ISO date-time text when they hold a datetime,
   * the birth date becomes ISO date text when it holds a plain date, and
   * everything else is copied.
   */
  function Serialized(a: Attr, v: Value): Value {
    if (a == CreatedAt || a == UpdatedAt) && v.DateTimeV? then IsoDateTime(v.stamp)
    else if a == DataNasc && v.DateV? then IsoDate(v.date)
    else v
  }

  /** `d` holds exactly the eleven keys, under each the serialised field of `r`. */
  ghost predicate Serialises(d: Row, r: Record) {
    d.Keys == Keys && forall a {:trigger d[Key(a)]} :: d[Key(a)] == Serialized(a, r.At(a))
  }

  /** `Funcionario.to_dict`. */
  function ToDict(r: Record): (d: Row)
    ensures Serialises(d, r)
  {
    var data := StripKeys(AsDictItems(r));
    StripAsDictItems(r);
    IsoRewrites(data, r);
    var data := StampToIso(data, "created_at");
    var data := StampToIso(data, "updated_at");
    DateToIso(data, "data_nasc")
  }

  /**
   * The three ISO rewrites of `to_dict`, applied to the underscore-stripped
   * dictionary of `r`, leave exactly `Serialized` under every key.
   */
  lemma IsoRewrites(m: Row, r: Record)
    requires m.Keys == Keys
    requires forall a :: m[Key(a)] == r.At(a)
    ensures Serialises(DateToIso(StampToIso(StampToIso(m, "created_at"), "updated_at"), "data_nasc"), r)
  {
    var m1 := StampToIso(m, "created_at");
    var m2 := StampToIso(m1, "updated_at");
    var d := DateToIso(m2, "data_nasc");
    forall a ensures d[Key(a)] == Serialized(a, r.At(a)) {
      IsoRewritesAt(m, r, a);
    }
  }

  lemma IsoRewritesAt(m: Row, r: Record, a: Attr)
    requires m.Keys == Keys
    requires forall a :: m[Key(a)] == r.At(a)
    ensures DateToIso(StampToIso(StampToIso(m, "created_at"), "updated_at"), "data_nasc")[Key(a)]
            == Serialized(a, r.At(a))
  {
    KeyIsListed(a);
    if a != CreatedAt { KeysDistinct(a, CreatedAt); }
    if a != UpdatedAt { KeysDistinct(a, UpdatedAt); }
    if a != DataNasc { KeysDistinct(a, DataNasc); }
  }

  /** Stripping the field names of `asdict` yields each key once, with its field's value. */
  lemma StripAsDictItems(r: Record)
    ensures StripKeys(AsDictItems(r)).Keys == Keys
    ensures forall a :: StripKeys(AsDictItems(r))[Key(a)] == r.At(a)
  {
    var items := AsDictItems(r);
    var m := StripKeys(items);
    forall a ensures Key(a) in m && m[Key(a)] == r.At(a) {
      var i := IndexOf(a);
      StripFieldName(a);
      assert StrippedKey(items, i) == Key(a);
      assert LastWithStrippedKey(items, i) by {
        forall j | i < j < |items| ensures StrippedKey(items, j) != StrippedKey(items, i) {
          StripFieldName(Attrs[j]);
          if Key(Attrs[j]) == Key(a) { KeyInjective(Attrs[j], a); }
        }
      }
      StripKeysLastWins(items, i);
    }
    forall k | k in m ensures k in Keys {
      StripKeysHasNoOtherKey(items, k);
      var i :| 0 <= i < |items| && StrippedKey(items, i) == k;
      StripFieldName(Attrs[i]);
      KeyIsListed(Attrs[i]);
    }
    forall k | k in Keys ensures k in m {
      var a := AttrOfKey(k);
      assert Key(a) in m;
    }
  }

  /** The position of an attribute in declaration order. */
  function IndexOf(a: Attr): (i: nat)
    ensures i < |Attrs| && Attrs[i] == a
  {
    match a
    case Cpf => 0
    case Pnome => 1
    case Unome => 2
    case DataNasc => 3
    case Endereco => 4
    case Salario => 5
    case Sexo => 6
    case CpfSupervisor => 7
    case NumeroDepartamento => 8
    case CreatedAt => 9
    case UpdatedAt => 10
  }

  /** The attribute a listed key belongs to. */
  function AttrOfKey(k: string): (a: Attr)
    requires k in Keys
    ensures Key(a) == k
  {
    if k == "cpf" then Cpf
    else if k == "pnome" then Pnome
    else if k == "unome" then Unome
    else if k == "data_nasc" then DataNasc
    else if k == "endereco" then Endereco
    else if k == "salario" then Salario
    else if k == "sexo" then Sexo
    else if k == "cpf_supervisor" then CpfSupervisor
    else if k == "numero_departamento" then NumeroDepartamento
    else if k == "created_at" then CreatedAt
    else UpdatedAt
  }

  lemma KeyIsListed(a: Attr)
    ensures Key(a) in Keys
  {
  }

  lemma KeyInjective(a: Attr, b: Attr)
    requires Key(a) == Key(b)
    ensures a == b
  {
    assert Key(a)[..3] == Key(b)[..3];
    assert |Key(a)| == |Key(b)|;
  }

  lemma KeysDistinct(a: Attr, b: Attr)
    requires a != b
    ensures Key(a) != Key(b)
  {
    if Key(a) == Key(b) { KeyInjective(a, b); }
  }

  /** `'_' + key` loses exactly its one underscore under `lstrip('_')`. */
  lemma StripFieldName(a: Attr)
    ensures LStripUnderscore(FieldName(a)) == Key(a)
  {
    var s := FieldName(a);
    assert s[1..] == Key(a);
    assert Key(a)[0] != '_';
  }

  // ---------------------------------------------------------------------
  // from_dict
  // ---------------------------------------------------------------------

  /**
   * `Funcionario.from_dict`: the record built positionally from `d.get` of
   * each key; a missing key gives None, never the dataclass default.
   */
  function FromDict(d: Row): (r: Record)
    ensures forall a {:trigger r.At(a)} :: r.At(a) == Get(d, Key(a))
  {
    Record(
      Get(d, "cpf"),
      Get(d, "pnome"),
      Get(d, "unome"),
      Get(d, "data_nasc"),
      Get(d, "endereco"),
      Get(d, "salario"),
      Get(d, "sexo"),
      Get(d, "cpf_supervisor"),
      Get(d, "numero_departamento"),
      Get(d, "created_at"),
      Get(d, "updated_at"))
  }

  /** A dictionary without `endereco`, `salario` or `sexo` does not get the dataclass defaults. */
  lemma FromDictIgnoresDefaults(d: Row)
    requires "endereco" !in d && "salario" !in d && "sexo" !in d
    ensures FromDict(d).endereco == Null != DefaultEndereco
    ensures FromDict(d).salario == Null != DefaultSalario
    ensures FromDict(d).sexo == Null != DefaultSexo
  {
  }

  // ---------------------------------------------------------------------
  // Round trips
  // ---------------------------------------------------------------------

  /** The record as `to_dict` leaves it: dates and timestamps turned into ISO text. */
  function Textual(r: Record): (t: Record)
    ensures forall a :: t.At(a) == Serialized(a, r.At(a))
  {
    r.(dataNasc := Serialized(DataNasc, r.dataNasc),
       createdAt := Serialized(CreatedAt, r.createdAt),
       updatedAt := Serialized(UpdatedAt, r.updatedAt))
  }

  /**
   * No field holds a value that `to_dict` converts: the birth date is not a
   * plain date and neither timestamp is a datetime.
   */
  predicate Unconverted(r: Record) {
    !r.dataNasc.DateV? && !r.createdAt.DateTimeV? && !r.updatedAt.DateTimeV?
  }

  /** `d` cut down to the eleven keys, with absent keys mapped to None. */
  function Restricted(d: Row): (m: Row)
    ensures m.Keys == Keys
  {
    map k | k in Keys :: Get(d, k)
  }

  /**
   * `to_dict(from_dict(d))` is `d` restricted to the eleven keys, absent keys
   * becoming None and extra keys dropped, exactly when `d` holds nothing that
   * `to_dict` converts.
   */
  lemma ToDictFromDict(d: Row)
    ensures ToDict(FromDict(d)) == Restricted(d) <==> Unconverted(FromDict(d))
  {
    SerialisesRestricted(ToDict(FromDict(d)), FromDict(d), d);
  }

  lemma SerialisesRestricted(m: Row, r: Record, d: Row)
    requires Serialises(m, r)
    requires forall a :: r.At(a) == Get(d, Key(a))
    ensures m == Restricted(d) <==> Unconverted(r)
  {
    var rd := Restricted(d);
    if Unconverted(r) {
      forall k | k in Keys ensures m[k] == rd[k] {
        var a := AttrOfKey(k);
      }
    } else if r.dataNasc.DateV? {
      assert m[Key(DataNasc)] != rd["data_nasc"];
    } else if r.createdAt.DateTimeV? {
      assert m[Key(CreatedAt)] != rd["created_at"];
    } else {
      assert m[Key(UpdatedAt)] != rd["updated_at"];
    }
  }

  /**
   * `from_dict(to_dict(f))` is `f` with its dates and timestamps as ISO text:
   * no parsing happens on the way back.
   */
  lemma FromDictToDict(r: Record)
    ensures FromDict(ToDict(r)) == Textual(r)
  {
    RecordExtensional(FromDict(ToDict(r)), Textual(r));
  }

  /** `from_dict(to_dict(f))` agrees with `f` on every field that is not a date or timestamp. */
  lemma FromDictToDictKeepsPlainFields(r: Record, a: Attr)
    requires a != DataNasc && a != CreatedAt && a != UpdatedAt
    ensures FromDict(ToDict(r)).At(a) == r.At(a)
  {
    FromDictToDict(r);
  }

  /**
   * A record survives `from_dict(to_dict(f))` unchanged exactly when it holds
   * nothing that `to_dict` converts.
   */
  lemma RoundTripExactly(r: Record)
    ensures FromDict(ToDict(r)) == r <==> Unconverted(r)
  {
    FromDictToDict(r);
    if Unconverted(r) {
      RecordExtensional(Textual(r), r);
    } else {
      assert Textual(r).At(DataNasc) != r.At(DataNasc)
          || Textual(r).At(CreatedAt) != r.At(CreatedAt)
          || Textual(r).At(UpdatedAt) != r.At(UpdatedAt);
    }
  }

  /** A record whose birth date is a date object does not survive the round trip. */
  lemma RoundTripLosesBirthDate(r: Record)
    requires r.dataNasc.DateV?
    ensures FromDict(ToDict(r)) != r
    ensures FromDict(ToDict(r)).dataNasc == IsoDate(r.dataNasc.date)
  {
    FromDictToDict(r);
  }

  /**
   * Records that differ at most in `cpf` and `created_at` serialise alike
   * once those two keys are dropped.
   */
  lemma ToDictOutsideKeyAndCreation(r: Record, s: Record)
    requires forall a :: a != Cpf && a != CreatedAt ==> r.At(a) == s.At(a)
    ensures ToDict(r) - {"cpf", "created_at"} == ToDict(s) - {"cpf", "created_at"}
  {
    SerialisationsOutsideKeyAndCreation(ToDict(r), ToDict(s), r, s);
  }

  lemma SerialisationsOutsideKeyAndCreation(d: Row, e: Row, r: Record, s: Record)
    requires Serialises(d, r) && Serialises(e, s)
    requires forall a :: a != Cpf && a != CreatedAt ==> r.At(a) == s.At(a)
    ensures d - {"cpf", "created_at"} == e - {"cpf", "created_at"}
  {
    forall k | k in Keys && k != "cpf" && k != "created_at" ensures d[k] == e[k] {
      var a := AttrOfKey(k);
    }
  }

  // ---------------------------------------------------------------------
  // Setters
  // ---------------------------------------------------------------------

  /** The attributes whose setter also bumps `updated_at`. */
  predicate Tracked(a: Attr) {
    a != CreatedAt && a != UpdatedAt
  }

  /** The record after a tracked setter: the field set to `v`, `updated_at` to the clock reading. */
  function Bumped(r: Record, a: Attr, v: Value, now: DateTime): (s: Record)
    requires Tracked(a)
    ensures s.At(a) == v
    ensures s.At(UpdatedAt) == DateTimeV(now)
    ensures forall b :: b != a && b != UpdatedAt ==> s.At(b) == r.At(b)
  {
    r.With(a, v).With(UpdatedAt, DateTimeV(now))
  }

  /**
   * After a tracked setter the serialised record differs from the one before
   * exactly at the field's key and at `updated_at`, which becomes the clock
   * reading as ISO text; `created_at` in particular is untouched.
   */
  lemma BumpedToDict(r: Record, a: Attr, v: Value, now: DateTime)
    requires Tracked(a)
    ensures ToDict(Bumped(r, a, v, now)) ==
            ToDict(r)[Key(a) := Serialized(a, v)]["updated_at" := IsoDateTime(now)]
  {
    var s := Bumped(r, a, v, now);
    ChangedTwoSerialised(ToDict(r), ToDict(s), r, s, a, now);
  }

  /**
   * The serialisation `ds` of a record `s` that differs from `r` at most at
   * the tracked attribute `a` and at `updated_at` is the serialisation `dr`
   * of `r` with those two keys overwritten.
   */
  lemma ChangedTwoSerialised(dr: Row, ds: Row, r: Record, s: Record, a: Attr, now: DateTime)
    requires Serialises(dr, r) && Serialises(ds, s)
    requires Tracked(a)
    requires s.At(UpdatedAt) == DateTimeV(now)
    requires forall c :: c != a && c != UpdatedAt ==> s.At(c) == r.At(c)
    ensures ds == dr[Key(a) := Serialized(a, s.At(a))]["updated_at" := IsoDateTime(now)]
  {
    var y := dr[Key(a) := Serialized(a, s.At(a))];
    var rhs := y["updated_at" := IsoDateTime(now)];
    KeyIsListed(a);
    assert "updated_at" in Keys;
    assert ds.Keys == Keys == rhs.Keys;
    KeysDistinct(a, UpdatedAt);
    forall k | k in Keys ensures ds[k] == rhs[k] {
      var b := AttrOfKey(k);
      if b != UpdatedAt {
        KeysDistinct(b, UpdatedAt);
        if b != a {
          KeysDistinct(a, b);
          assert y[Key(b)] == dr[Key(b)];
        }
      }
    }
  }

  /** The mutable record object of `models/funcionario.py`. */
  class Funcionario {
    var cpf: Value
    var pnome: Value
    var unome: Value
    var dataNasc: Value
    var endereco: Value
    var salario: Value
    var sexo: Value
    var cpfSupervisor: Value
    var numeroDepartamento: Value
    var createdAt: Value
    var updatedAt: Value

    /** The record's current value. */
    function Snapshot(): Record
      reads this
    {
      Record(cpf, pnome, unome, dataNasc, endereco, salario, sexo,
             cpfSupervisor, numeroDepartamento, createdAt, updatedAt)
    }

    /** The dataclass constructor, with the dataclass defaults. */
    constructor (cpf: Value, pnome: Value, unome: Value, dataNasc: Value,
                 endereco: Value := DefaultEndereco, salario: Value := DefaultSalario,
                 sexo: Value := DefaultSexo, cpfSupervisor: Value := Null,
                 numeroDepartamento: Value := Null, createdAt: Value := Null,
                 updatedAt: Value := Null)
      ensures Snapshot() == Record(cpf, pnome, unome, dataNasc, endereco, salario, sexo,
                                   cpfSupervisor, numeroDepartamento, createdAt, updatedAt)
    {
      this.cpf := cpf;
      this.pnome := pnome;
      this.unome := unome;
      this.dataNasc := dataNasc;
      this.endereco := endereco;
      this.salario := salario;
      this.sexo := sexo;
      this.cpfSupervisor := cpfSupervisor;
      this.numeroDepartamento := numeroDepartamento;
      this.createdAt := createdAt;
      this.updatedAt := updatedAt;
    }

    /** `Funcionario.from_dict` as an object: the constructor called with all eleven values. */
    static method FromDictObject(d: Row) returns (f: Funcionario)
      ensures fresh(f)
      ensures f.Snapshot() == FromDict(d)
    {
      var r := FromDict(d);
      f := new Funcionario(r.cpf, r.pnome, r.unome, r.dataNasc, r.endereco, r.salario,
                           r.sexo, r.cpfSupervisor, r.numeroDepartamento, r.createdAt,
                           r.updatedAt);
    }

    // The nine property setters: each assigns its field and stamps `updated_at`
    // with the clock reading `now`, which the caller supplies.

    method SetCpf(v: Value, now: DateTime)
      modifies this
      ensures Snapshot() == Bumped(old(Snapshot()), Cpf, v, now)
    {
      cpf := v;
      updatedAt := DateTimeV(now);
    }

    method SetPnome(v: Value, now: DateTime)
      modifies this
      ensures Snapshot() == Bumped(old(Snapshot()), Pnome, v, now)
    {
      pnome := v;
      updatedAt := DateTimeV(now);
    }

    method SetUnome(v: Value, now: DateTime)
      modifies this
      ensures Snapshot() == Bumped(old(Snapshot()), Unome, v, now)
    {
      unome := v;
      updatedAt := DateTimeV(now);
    }

    method SetSalario(v: Value, now: DateTime)
      modifies this
      ensures Snapshot() == Bumped(old(Snapshot()), Salario, v, now)
    {
      salario := v;
      updatedAt := DateTimeV(now);
    }

    method SetDataNasc(v: Value, now: DateTime)
      modifies this
      ensures Snapshot() == Bumped(old(Snapshot()), DataNasc, v, now)
    {
      dataNasc := v;
      updatedAt := DateTimeV(now);
    }

    method SetEndereco(v: Value, now: DateTime)
      modifies this
      ensures Snapshot() == Bumped(old(Snapshot()), Endereco, v, now)
    {
      endereco := v;
      updatedAt := DateTimeV(now);
    }

    method SetSexo(v: Value, now: DateTime)
      modifies this
      ensures Snapshot() == Bumped(old(Snapshot()), Sexo, v, now)
    {
      sexo := v;
      updatedAt := DateTimeV(now);
    }

    method SetCpfSupervisor(v: Value, now: DateTime)
      modifies this
      ensures Snapshot() == Bumped(old(Snapshot()), CpfSupervisor, v, now)
    {
      cpfSupervisor := v;
      updatedAt := DateTimeV(now);
    }

    method SetNumeroDepartamento(v: Value, now: DateTime)
      modifies this
      ensures Snapshot() == Bumped(old(Snapshot()), NumeroDepartamento, v, now)
    {
      numeroDepartamento := v;
      updatedAt := DateTimeV(now);
    }

    /** The `updated_at` setter: takes any value, reads no clock, changes nothing else. */
    method SetUpdatedAt(v: Value)
      modifies this
      ensures Snapshot() == old(Snapshot()).With(UpdatedAt, v)
    {
      updatedAt := v;
    }
  }
}
