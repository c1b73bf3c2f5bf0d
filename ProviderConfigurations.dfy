// Provider configuration entries: the per-type check of a submitted value,
// the numbering of list values, and the service that keeps at most one
// ACTIVE entry per provider and code.  The table is a map from the identity
// id to the entry; `nextId` is the identity the next insert receives.
module ProviderConfigurations {
  import opened Wrappers
  import opened Strings

  datatype ConfigStatus = Active | Inactive
  datatype ConfigVisibility = Private | Public
  datatype ConfigDataType = StringValue | NumberValue | DoubleValue | FloatValue | BooleanValue

  /** One value of a list entry and its 1-based position. */
  datatype ConfigData = ConfigData(configValue: string, configValueSequence: int)

  datatype ConfigRequest = ConfigRequest(
    configCode: string,
    configLabel: string,
    configValue: Option<string>,
    status: ConfigStatus,
    visibility: ConfigVisibility,
    configDataType: ConfigDataType,
    hasList: bool,
    configValueList: Option<seq<string>>)

  datatype Configuration = Configuration(
    id: int,
    configCode: string,
    configLabel: string,
    configValue: Option<string>,
    status: ConfigStatus,
    visibility: ConfigVisibility,
    configDataType: ConfigDataType,
    hasList: bool,
    providerId: int,
    configDataList: Option<seq<ConfigData>>)

  function TypeName(t: ConfigDataType): string
  {
    match t
    case StringValue => "STRING"
    case NumberValue => "NUMBER"
    case DoubleValue => "DOUBLE"
    case FloatValue => "FLOAT"
    case BooleanValue => "BOOLEAN"
  }

  function InvalidValue(t: ConfigDataType, value: string): Failure
  {
    IllegalArgument("Invalid value for type " + TypeName(t) + ": " + value)
  }

  // ------------------------------------------------------------ mapper

  /**
   * `validateConfigValue`: a missing value or type passes; NUMBER must parse as
   * a 32-bit int, DOUBLE as a double (the grammar is the parameter), BOOLEAN
   * always passes, STRING must not be empty, and any other type fails.  Every
   * failure is reported as "Invalid value for type T: v".
   */
  function ValidateConfigValue(value: Option<string>, t: Option<ConfigDataType>, isDouble: string -> bool): Result<()>
  {
    if value.None? || t.None? then Ok(())
    else
      var v := value.value;
      var accepted :=
        match t.value
        case DoubleValue => isDouble(v)
        case NumberValue => ParseJavaInt(v).Some?
        case BooleanValue => true
        case StringValue => v != ""
        case FloatValue => false;
      if accepted then Ok(()) else Err(InvalidValue(t.value, v))
  }

  /** Whether the list values are checked instead of the single value. */
  predicate UsesList(req: ConfigRequest)
  {
    req.hasList && req.configValueList.Some?
  }

  /** The first list value the type refuses, if any. */
  function FirstInvalid(values: seq<string>, t: ConfigDataType, isDouble: string -> bool): (r: Option<nat>)
    ensures r.Some? ==> r.value < |values| && ValidateConfigValue(Some(values[r.value]), Some(t), isDouble).Err?
    ensures r.Some? ==> forall i :: 0 <= i < r.value ==> ValidateConfigValue(Some(values[i]), Some(t), isDouble).Ok?
    ensures r.None? ==> forall i :: 0 <= i < |values| ==> ValidateConfigValue(Some(values[i]), Some(t), isDouble).Ok?
    decreases |values|
  {
    if values == [] then None
    else if ValidateConfigValue(Some(values[0]), Some(t), isDouble).Err? then Some(0)
    else
      match FirstInvalid(values[1..], t, isDouble)
      case None => None
      case Some(j) => Some(j + 1)
  }

  /** The check `toEntity` makes before building the entry. */
  function ValidateRequest(req: ConfigRequest, isDouble: string -> bool): Result<()>
  {
    if UsesList(req) then
      match FirstInvalid(req.configValueList.value, req.configDataType, isDouble)
      case None => Ok(())
      case Some(i) => Err(InvalidValue(req.configDataType, req.configValueList.value[i]))
    else ValidateConfigValue(req.configValue, Some(req.configDataType), isDouble)
  }

  /** List values numbered 1..n in the order given. */
  function Sequenced(values: seq<string>): (r: seq<ConfigData>)
    ensures |r| == |values|
    ensures forall i :: 0 <= i < |values| ==> r[i] == ConfigData(values[i], i + 1)
  {
    seq(|values|, i requires 0 <= i < |values| => ConfigData(values[i], i + 1))
  }

  /** The entry `toEntity` builds: the request's fields, and the numbered list only when the list is used. */
  function ToEntity(req: ConfigRequest, providerId: int, id: int): Configuration
  {
    Configuration(id, req.configCode, req.configLabel, req.configValue, req.status, req.visibility,
      req.configDataType, req.hasList, providerId,
      if UsesList(req) then Some(Sequenced(req.configValueList.value)) else None)
  }

  lemma NullsPass(value: Option<string>, t: Option<ConfigDataType>, isDouble: string -> bool)
    requires value.None? || t.None?
    ensures ValidateConfigValue(value, t, isDouble) == Ok(())
  {
  }

  /** What each type accepts, stated per type. */
  lemma TypeRules(v: string, isDouble: string -> bool)
    ensures ValidateConfigValue(Some(v), Some(NumberValue), isDouble).Ok? <==> ParseJavaInt(v).Some?
    ensures ValidateConfigValue(Some(v), Some(DoubleValue), isDouble).Ok? <==> isDouble(v)
    ensures ValidateConfigValue(Some(v), Some(BooleanValue), isDouble).Ok?
    ensures ValidateConfigValue(Some(v), Some(StringValue), isDouble).Ok? <==> v != ""
    ensures ValidateConfigValue(Some(v), Some(FloatValue), isDouble) == Err(InvalidValue(FloatValue, v))
    ensures forall t :: ValidateConfigValue(Some(v), Some(t), isDouble).Err? ==>
      ValidateConfigValue(Some(v), Some(t), isDouble) == Err(InvalidValue(t, v))
  {
  }

  /** A printed 32-bit number passes as NUMBER; text with a letter in it does not. */
  lemma NumberExamples(i: int, isDouble: string -> bool)
    requires IsInt32(i)
    ensures ValidateConfigValue(Some(IntToString(i)), Some(NumberValue), isDouble).Ok?
    ensures ValidateConfigValue(Some("12a"), Some(NumberValue), isDouble).Err?
  {
    ParsePrintedInt(i);
    var bad := "12a";
    assert !IsDigit(bad[2]);
  }

  /** With a used list every value is checked and the single value is not; otherwise only the single value is. */
  lemma ValidateRequestRule(req: ConfigRequest, isDouble: string -> bool)
    ensures UsesList(req) ==>
      (ValidateRequest(req, isDouble).Ok? <==>
        forall i :: 0 <= i < |req.configValueList.value| ==>
          ValidateConfigValue(Some(req.configValueList.value[i]), Some(req.configDataType), isDouble).Ok?)
    ensures !UsesList(req) ==> ValidateRequest(req, isDouble) == ValidateConfigValue(req.configValue, Some(req.configDataType), isDouble)
  {
  }

  // ------------------------------------------------------------ service rules

  datatype Store = Store(configs: map<int, Configuration>, nextId: int)

  predicate WellKeyed(st: Store)
  {
    forall k :: k in st.configs ==> st.configs[k].id == k && k < st.nextId
  }

  predicate IsActiveCode(c: Configuration, pid: int, code: string)
  {
    c.providerId == pid && c.configCode == code && c.status == Active
  }

  /** At most one ACTIVE entry per provider and code. */
  predicate OneActivePerCode(configs: map<int, Configuration>)
  {
    forall a, b :: a in configs && b in configs && a != b && configs[a].status == Active && configs[b].status == Active ==>
      !(configs[a].providerId == configs[b].providerId && configs[a].configCode == configs[b].configCode)
  }

  const CONFLICT_HEAD: string := "An active configuration with code '"
  const CONFLICT_TAIL: string := "' already exists for this provider. Please deactivate the existing configuration first."

  function ConflictMessage(code: string): string
  {
    CONFLICT_HEAD + code + CONFLICT_TAIL
  }

  /**
   * `validateProviderConfiguration`: an ACTIVE request clashes with an ACTIVE
   * entry of the provider with the same code, other than the one excluded.
   */
  function CheckUnique(configs: map<int, Configuration>, req: ConfigRequest, pid: int, exclude: Option<int>): Result<()>
  {
    if req.status == Active &&
       exists k :: k in configs && IsActiveCode(configs[k], pid, req.configCode) && Some(k) != exclude
    then Err(IllegalArgument(ConflictMessage(req.configCode)))
    else Ok(())
  }

  datatype Outcome<T> = Outcome(result: Result<T>, after: Store)

  /** `create`: the uniqueness check, then the mapper's value check, then the insert. */
  function CreateStep(st: Store, req: ConfigRequest, pid: int, isDouble: string -> bool): Outcome<Configuration>
  {
    match CheckUnique(st.configs, req, pid, None)
    case Err(e) => Outcome(Err(e), st)
    case Ok(_) =>
      match ValidateRequest(req, isDouble)
      case Err(e) => Outcome(Err(e), st)
      case Ok(_) =>
        var c := ToEntity(req, pid, st.nextId);
        Outcome(Ok(c), Store(st.configs[st.nextId := c], st.nextId + 1))
  }

  /** The entry after `update` has overwritten its fields and refilled its list. */
  function Updated(existing: Configuration, req: ConfigRequest): Configuration
  {
    existing.(configCode := req.configCode, configLabel := req.configLabel, configValue := req.configValue,
      status := req.status, visibility := req.visibility, configDataType := req.configDataType, hasList := req.hasList,
      configDataList := Some(if UsesList(req) then Sequenced(req.configValueList.value) else []))
  }

  /** `update`: unknown or foreign entries give nothing; no value check is made. */
  function UpdateStep(st: Store, id: int, req: ConfigRequest, pid: int): Outcome<Option<Configuration>>
  {
    if id !in st.configs || st.configs[id].providerId != pid then Outcome(Ok(None), st)
    else
      match CheckUnique(st.configs, req, pid, Some(id))
      case Err(e) => Outcome(Err(e), st)
      case Ok(_) =>
        var c := Updated(st.configs[id], req);
        Outcome(Ok(Some(c)), st.(configs := st.configs[id := c]))
  }

  /** `findById`: only an ACTIVE entry of the asking provider is found. */
  function FindById(configs: map<int, Configuration>, id: int, pid: int): Option<Configuration>
  {
    if id in configs && configs[id].providerId == pid && configs[id].status == Active then Some(configs[id]) else None
  }

  /** `delete`: only the provider's own entry is removed. */
  function DeleteStep(st: Store, id: int, pid: int): (bool, Store)
  {
    if id in st.configs && st.configs[id].providerId == pid then (true, st.(configs := st.configs - {id}))
    else (false, st)
  }

  // ------------------------------------------------------------ properties

  /** A non-ACTIVE request never meets the uniqueness error. */
  lemma InactiveNeverClashes(configs: map<int, Configuration>, req: ConfigRequest, pid: int, exclude: Option<int>)
    requires req.status != Active
    ensures CheckUnique(configs, req, pid, exclude) == Ok(())
  {
  }

  /** An ACTIVE create is refused, changing nothing, exactly when the provider already has an ACTIVE entry with that code. */
  lemma CreateClash(st: Store, req: ConfigRequest, pid: int, isDouble: string -> bool)
    requires req.status == Active
    ensures (exists k :: k in st.configs && IsActiveCode(st.configs[k], pid, req.configCode)) <==>
      CreateStep(st, req, pid, isDouble) == Outcome(Err(IllegalArgument(ConflictMessage(req.configCode))), st)
  {
    if exists k :: k in st.configs && IsActiveCode(st.configs[k], pid, req.configCode) {
      var k :| k in st.configs && IsActiveCode(st.configs[k], pid, req.configCode);
      assert Some(k) != None;
      UniqueClash(st.configs, req, pid, None, k);
      assert CreateStep(st, req, pid, isDouble) == Outcome(Err(IllegalArgument(ConflictMessage(req.configCode))), st);
    } else {
      assert CheckUnique(st.configs, req, pid, None).Ok?;
      NoClashNoConflict(st, req, pid, isDouble);
      assert CreateStep(st, req, pid, isDouble) != Outcome(Err(IllegalArgument(ConflictMessage(req.configCode))), st);
    }
  }

  /** An ACTIVE entry with the code, other than the excluded one, is a clash. */
  lemma UniqueClash(configs: map<int, Configuration>, req: ConfigRequest, pid: int, exclude: Option<int>, k: int)
    requires req.status == Active && k in configs && IsActiveCode(configs[k], pid, req.configCode) && Some(k) != exclude
    ensures CheckUnique(configs, req, pid, exclude) == Err(IllegalArgument(ConflictMessage(req.configCode)))
  {
  }

  /** Past the uniqueness check, no outcome carries the conflict message. */
  lemma NoClashNoConflict(st: Store, req: ConfigRequest, pid: int, isDouble: string -> bool)
    requires CheckUnique(st.configs, req, pid, None).Ok?
    ensures CreateStep(st, req, pid, isDouble).result != Err(IllegalArgument(ConflictMessage(req.configCode)))
  {
    var v := ValidateRequest(req, isDouble);
    ConflictNotInvalid(req, isDouble);
    if v.Err? {
      assert CreateStep(st, req, pid, isDouble).result == Err(v.error);
    }
  }

  /** The conflict message never reads as a value error. */
  lemma ConflictNotInvalid(req: ConfigRequest, isDouble: string -> bool)
    ensures ValidateRequest(req, isDouble).Err? ==> ValidateRequest(req, isDouble).error.message != ConflictMessage(req.configCode)
  {
    var r := ValidateRequest(req, isDouble);
    if r.Err? {
      var m := r.error.message;
      assert m[0] == 'I';
      assert ConflictMessage(req.configCode)[0] == 'A';
    }
  }

  /** A created entry takes the next id, keeps the request's fields and numbers the list 1..n. */
  lemma CreateEffect(st: Store, req: ConfigRequest, pid: int, isDouble: string -> bool)
    requires WellKeyed(st)
    ensures var o := CreateStep(st, req, pid, isDouble);
      (o.result.Err? ==> o.after == st) &&
      (o.result.Ok? <==> CheckUnique(st.configs, req, pid, None).Ok? && ValidateRequest(req, isDouble).Ok?) &&
      (o.result.Ok? ==>
        var c := o.result.value;
        c.id == st.nextId && st.nextId !in st.configs &&
        o.after.configs == st.configs[c.id := c] && WellKeyed(o.after) &&
        c.providerId == pid && c.configCode == req.configCode && c.status == req.status &&
        (UsesList(req) ==> c.configDataList == Some(Sequenced(req.configValueList.value))) &&
        (!UsesList(req) ==> c.configDataList.None?))
  {
  }

  /**
   * An update of an unknown id or of another provider's entry gives nothing and
   * changes nothing; an update that clashes changes nothing; otherwise only that
   * entry changes, and an entry never clashes with itself.
   */
  lemma UpdateEffect(st: Store, id: int, req: ConfigRequest, pid: int)
    requires WellKeyed(st)
    ensures var o := UpdateStep(st, id, req, pid);
      (id !in st.configs || st.configs[id].providerId != pid ==> o == Outcome(Ok(None), st)) &&
      (o.result.Err? ==> o.after == st) &&
      (o.result.Ok? && o.result.value.Some? ==>
        var c := o.result.value.value;
        o.after.configs == st.configs[id := c] && WellKeyed(o.after) && o.after.nextId == st.nextId &&
        c.id == id && c.providerId == pid && c.configCode == req.configCode && c.status == req.status &&
        c.configDataList == Some(if UsesList(req) then Sequenced(req.configValueList.value) else []))
    ensures (id in st.configs && st.configs[id].providerId == pid &&
             forall k :: k in st.configs && k != id ==> !IsActiveCode(st.configs[k], pid, req.configCode)) ==>
      UpdateStep(st, id, req, pid).result.Ok?
  {
  }

  /** The update skips the value check: a NUMBER entry can be given a value that create refuses. */
  lemma UpdateSkipsValueCheck(st: Store, id: int, pid: int, req: ConfigRequest, isDouble: string -> bool)
    requires id in st.configs && st.configs[id].providerId == pid
    requires req.status == Inactive && req.configDataType == FloatValue && !req.hasList && req.configValue == Some("1")
    ensures CreateStep(st, req, pid, isDouble).result.Err?
    ensures UpdateStep(st, id, req, pid).result == Ok(Some(Updated(st.configs[id], req)))
  {
  }

  lemma CreatePreservesOneActive(st: Store, req: ConfigRequest, pid: int, isDouble: string -> bool)
    requires WellKeyed(st) && OneActivePerCode(st.configs)
    ensures OneActivePerCode(CreateStep(st, req, pid, isDouble).after.configs)
  {
    var o := CreateStep(st, req, pid, isDouble);
    if o.result.Ok? {
      var m := o.after.configs;
      var n := st.nextId;
      forall a, b | a in m && b in m && a != b && m[a].status == Active && m[b].status == Active
        ensures !(m[a].providerId == m[b].providerId && m[a].configCode == m[b].configCode)
      {
        if a == n {
          assert !IsActiveCode(st.configs[b], pid, req.configCode);
        } else if b == n {
          assert !IsActiveCode(st.configs[a], pid, req.configCode);
        }
      }
    }
  }

  lemma UpdatePreservesOneActive(st: Store, id: int, req: ConfigRequest, pid: int)
    requires WellKeyed(st) && OneActivePerCode(st.configs)
    ensures OneActivePerCode(UpdateStep(st, id, req, pid).after.configs)
  {
    if id in st.configs && st.configs[id].providerId == pid && CheckUnique(st.configs, req, pid, Some(id)).Ok? {
      var c := Updated(st.configs[id], req);
      assert c.providerId == pid && c.configCode == req.configCode && c.status == req.status;
      OneActiveAfterWrite(st.configs, id, c);
    }
  }

  /** Writing an entry keeps one ACTIVE entry per code when no other entry
    * is ACTIVE with the written entry's provider and code. */
  lemma OneActiveAfterWrite(configs: map<int, Configuration>, id: int, c: Configuration)
    requires OneActivePerCode(configs)
    requires c.status == Active ==> forall k :: k in configs && k != id ==> !IsActiveCode(configs[k], c.providerId, c.configCode)
    ensures OneActivePerCode(configs[id := c])
  {
    var m := configs[id := c];
    forall a, b | a in m && b in m && a != b && m[a].status == Active && m[b].status == Active
      ensures !(m[a].providerId == m[b].providerId && m[a].configCode == m[b].configCode)
    {
      if a == id {
        assert !IsActiveCode(configs[b], c.providerId, c.configCode);
      } else if b == id {
        assert !IsActiveCode(configs[a], c.providerId, c.configCode);
      }
    }
  }

  /** Lookup finds only ACTIVE entries of the asking provider, and every such entry. */
  lemma FindByIdRule(configs: map<int, Configuration>, id: int, pid: int)
    ensures FindById(configs, id, pid).Some? <==> id in configs && configs[id].providerId == pid && configs[id].status == Active
    ensures FindById(configs, id, pid).Some? ==> FindById(configs, id, pid).value == configs[id]
  {
  }

  /** Deleting reports whether the provider owned the entry; only that entry goes, and the rule of one ACTIVE entry holds on. */
  lemma DeleteEffect(st: Store, id: int, pid: int)
    requires OneActivePerCode(st.configs)
    ensures var (ok, after) := DeleteStep(st, id, pid);
      (ok <==> id in st.configs && st.configs[id].providerId == pid) &&
      (!ok ==> after == st) &&
      (ok ==> id !in after.configs) &&
      OneActivePerCode(after.configs) &&
      forall k :: k in after.configs ==> k in st.configs && after.configs[k] == st.configs[k]
  {
  }

  // ------------------------------------------------------------ the service

  class ProviderConfigurationService {
    var configs: map<int, Configuration>
    var nextId: int
    const isDouble: string -> bool

    predicate Valid()
      reads this
    {
      WellKeyed(Store(configs, nextId)) && OneActivePerCode(configs)
    }

    constructor(isDouble: string -> bool)
      ensures Valid() && configs == map[] && this.isDouble == isDouble
    {
      configs := map[];
      nextId := 1;
      this.isDouble := isDouble;
    }

    method Create(req: ConfigRequest, pid: int) returns (r: Result<Configuration>)
      requires Valid()
      modifies this
      ensures Valid()
      ensures Outcome(r, Store(configs, nextId)) == CreateStep(old(Store(configs, nextId)), req, pid, isDouble)
    {
      CreatePreservesOneActive(Store(configs, nextId), req, pid, isDouble);
      var unique := CheckUnique(configs, req, pid, None);
      if unique.Err? {
        return Err(unique.error);
      }
      var valid := ValidateValues(req);
      if valid.Err? {
        return Err(valid.error);
      }
      var c := ToEntity(req, pid, nextId);
      configs := configs[nextId := c];
      nextId := nextId + 1;
      r := Ok(c);
    }

    /** The mapper's check, value by value, stopping at the first refused one. */
    method ValidateValues(req: ConfigRequest) returns (r: Result<()>)
      ensures r == ValidateRequest(req, isDouble)
    {
      if !UsesList(req) {
        return ValidateConfigValue(req.configValue, Some(req.configDataType), isDouble);
      }
      var values := req.configValueList.value;
      var i := 0;
      while i < |values|
        invariant 0 <= i <= |values|
        invariant forall j :: 0 <= j < i ==> ValidateConfigValue(Some(values[j]), Some(req.configDataType), isDouble).Ok?
      {
        var check := ValidateConfigValue(Some(values[i]), Some(req.configDataType), isDouble);
        if check.Err? {
          return check;
        }
        i := i + 1;
      }
      r := Ok(());
    }

    method Update(id: int, req: ConfigRequest, pid: int) returns (r: Result<Option<Configuration>>)
      requires Valid()
      modifies this
      ensures Valid()
      ensures Outcome(r, Store(configs, nextId)) == UpdateStep(old(Store(configs, nextId)), id, req, pid)
    {
      UpdatePreservesOneActive(Store(configs, nextId), id, req, pid);
      if id !in configs || configs[id].providerId != pid {
        return Ok(None);
      }
      var unique := CheckUnique(configs, req, pid, Some(id));
      if unique.Err? {
        return Err(unique.error);
      }
      var list: seq<ConfigData> := [];
      if UsesList(req) {
        var values := req.configValueList.value;
        var i := 0;
        while i < |values|
          invariant 0 <= i <= |values|
          invariant list == Sequenced(values[..i])
        {
          list := list + [ConfigData(values[i], i + 1)];
          i := i + 1;
        }
        assert values[..i] == values;
      }
      var c := configs[id].(configCode := req.configCode, configLabel := req.configLabel, configValue := req.configValue,
        status := req.status, visibility := req.visibility, configDataType := req.configDataType, hasList := req.hasList,
        configDataList := Some(list));
      configs := configs[id := c];
      r := Ok(Some(c));
    }

    method Delete(id: int, pid: int) returns (ok: bool)
      requires Valid()
      modifies this
      ensures Valid()
      ensures (ok, Store(configs, nextId)) == DeleteStep(old(Store(configs, nextId)), id, pid)
    {
      if id in configs && configs[id].providerId == pid {
        configs := configs - {id};
        return true;
      }
      return false;
    }
  }
}
