// The provider registry UI's configuration edit form: loading a stored
// configuration into the form, and the edits of its list of values (add an
// empty value, change the value at an index, remove the value at an
// index), each leaving every other field of the form as it was.
module EditConfiguration {
  import opened Wrappers

  /** One element of a configuration's `configDataList`. */
  datatype ConfigData = ConfigData(configValue: string)

  /** A configuration as the service returns it; a missing value or a
    * missing list is `None`. */
  datatype Config = Config(id: int, configCode: string, configLabel: string, configValue: Option<string>,
                           status: string, visibility: string, configDataType: string, hasList: bool,
                           configDataList: Option<seq<ConfigData>>)

  datatype Form = Form(configCode: string, configLabel: string, configValue: string, status: string,
                       visibility: string, configDataType: string, hasList: bool,
                       configValueList: seq<string>)

  /** The form as the page opens, before the configuration is loaded. */
  const INITIAL: Form := Form("", "", "", "ACTIVE", "PRIVATE", "STRING", false, [])

  /** Every field but the list. */
  datatype Rest = Rest(configCode: string, configLabel: string, configValue: string, status: string,
                       visibility: string, configDataType: string, hasList: bool)

  function RestOf(f: Form): Rest
  {
    Rest(f.configCode, f.configLabel, f.configValue, f.status, f.visibility, f.configDataType, f.hasList)
  }

  /** `configDataList?.map(item => item.configValue) || []`. */
  function Values(list: Option<seq<ConfigData>>): (r: seq<string>)
    ensures list.None? ==> r == []
    ensures list.Some? ==> |r| == |list.value|
                           && forall i :: 0 <= i < |r| ==> r[i] == list.value[i].configValue
  {
    if list.None? then [] else seq(|list.value|, i requires 0 <= i < |list.value| => list.value[i].configValue)
  }

  /** The form filled from a configuration. */
  function FormOf(c: Config): Form
  {
    Form(c.configCode, c.configLabel, c.configValue.GetOr(""), c.status, c.visibility,
         c.configDataType, c.hasList, Values(c.configDataList))
  }

  /** The first configuration with the given id, if any. */
  function FindConfig(configs: seq<Config>, id: int): (r: Option<Config>)
    ensures r.None? <==> forall i :: 0 <= i < |configs| ==> configs[i].id != id
    ensures r.Some? ==> r.value in configs && r.value.id == id
    ensures r.Some? ==> exists i :: 0 <= i < |configs| && configs[i] == r.value
                                    && forall j :: 0 <= j < i ==> configs[j].id != id
  {
    if configs == [] then None
    else if configs[0].id == id then Some(configs[0])
    else
      var rest := FindConfig(configs[1..], id);
      if rest.Some? then
        var k :| 0 <= k < |configs| - 1 && configs[1..][k] == rest.value
                 && forall j :: 0 <= j < k ==> configs[1..][j].id != id;
        assert configs[k + 1] == rest.value;
        assert forall j :: 0 <= j < k + 1 ==> configs[j].id != id by {
          forall j | 0 <= j < k + 1 ensures configs[j].id != id {
            if j > 0 { assert configs[j] == configs[1..][j - 1]; }
          }
        }
        rest
      else rest
  }

  /** `fetchConfiguration`: the form becomes the configuration whose id is
    * the route's (`parseInt(id)`, `None` when that is not a number); it is
    * left as it was when there is none. */
  function Load(f: Form, configs: seq<Config>, id: Option<int>): Form
  {
    var c := if id.Some? then FindConfig(configs, id.value) else None;
    if c.Some? then FormOf(c.value) else f
  }

  /** `addListValue`. */
  function AddListValue(f: Form): Form
  {
    f.(configValueList := f.configValueList + [""])
  }

  /** `updateListValue(index, value)`: the element at `index` only. */
  function UpdateListValue(f: Form, index: int, value: string): Form
  {
    var xs := f.configValueList;
    f.(configValueList := seq(|xs|, i requires 0 <= i < |xs| => if i == index then value else xs[i]))
  }

  /** `removeListValue(index)`: keeps the elements at every other index. */
  function RemoveListValue(f: Form, index: int): Form
  {
    var xs := f.configValueList;
    f.(configValueList := if 0 <= index < |xs| then xs[..index] + xs[index + 1..] else xs)
  }

  // ---------------------------------------------------------------- properties

  /** The loaded list is the configuration's values in order, or empty; a
    * missing value reads as empty, and an unknown id changes nothing. */
  lemma LoadRules(f: Form, configs: seq<Config>, id: int)
    ensures (forall i :: 0 <= i < |configs| ==> configs[i].id != id) ==> Load(f, configs, Some(id)) == f
    ensures Load(f, configs, None) == f
    ensures configs != [] && configs[0].id == id ==> Load(f, configs, Some(id)) == FormOf(configs[0])
    ensures var g := Load(f, configs, Some(id));
      (exists i :: 0 <= i < |configs| && configs[i].id == id) ==>
        exists c :: c in configs && c.id == id && g.configValueList == Values(c.configDataList)
                    && g.configValue == c.configValue.GetOr("")
  {
  }

  /** Adding puts an empty value at the end and keeps the others. */
  lemma AddRules(f: Form)
    ensures AddListValue(f).configValueList == f.configValueList + [""]
    ensures RestOf(AddListValue(f)) == RestOf(f)
  {
  }

  /** Updating changes the element at `index` only, and nothing when the
    * index is outside the list. */
  lemma UpdateRules(f: Form, index: int, value: string)
    ensures var g := UpdateListValue(f, index, value);
      && RestOf(g) == RestOf(f)
      && |g.configValueList| == |f.configValueList|
      && (0 <= index < |f.configValueList| ==> g.configValueList[index] == value)
      && (forall i :: 0 <= i < |f.configValueList| && i != index ==> g.configValueList[i] == f.configValueList[i])
      && (index < 0 || index >= |f.configValueList| ==> g == f)
  {
    var g := UpdateListValue(f, index, value);
    if index < 0 || index >= |f.configValueList| {
      assert g.configValueList == f.configValueList;
    }
  }

  /** Removing drops exactly the element at `index` and keeps the order of
    * the rest; an index outside the list changes nothing. */
  lemma RemoveRules(f: Form, index: int)
    ensures var g := RemoveListValue(f, index);
      && RestOf(g) == RestOf(f)
      && (0 <= index < |f.configValueList| ==>
            |g.configValueList| == |f.configValueList| - 1
            && (forall i :: 0 <= i < index ==> g.configValueList[i] == f.configValueList[i])
            && (forall i :: index <= i < |g.configValueList| ==> g.configValueList[i] == f.configValueList[i + 1]))
      && (index < 0 || index >= |f.configValueList| ==> g == f)
  {
  }

  /** Removing the value just added gives the form back. */
  lemma RemoveUndoesAdd(f: Form)
    ensures RemoveListValue(AddListValue(f), |f.configValueList|) == f
  {
    var g := AddListValue(f);
    assert g.configValueList[..|f.configValueList|] == f.configValueList;
  }

  /** Writing an element's own value back changes nothing, and updating
    * twice at one index keeps the second value. */
  lemma UpdateRoundTrip(f: Form, index: int, v: string, w: string)
    ensures 0 <= index < |f.configValueList| ==>
      UpdateListValue(f, index, f.configValueList[index]) == f
    ensures UpdateListValue(UpdateListValue(f, index, v), index, w) == UpdateListValue(f, index, w)
  {
    if 0 <= index < |f.configValueList| {
      assert UpdateListValue(f, index, f.configValueList[index]).configValueList == f.configValueList;
    }
  }
}
