// The API registry's management service: registering and updating API
// entries, bumping the version of a published entry, the audit trail of
// published updates, the provider's listing and tag/domain suggestions.
module ApiManagement {
  import opened Wrappers
  import opened Strings
  import opened ApiMapper

  const PUBLISHED: string := "PUBLISHED"
  const API_NOT_FOUND: string := "API not found"
  const NO_CHANGES: string := "No changes"
  const CHANGED: string := "Changed: "
  const UPDATE: string := "UPDATE"
  const SUGGESTION_LIMIT: nat := 10

  // ---------------------------------------------------------------- versions

  /** Java's `int` addition of one: the 32-bit value congruent to n + 1. */
  function Inc32(n: int): (r: int)
    requires IsInt32(n)
    ensures IsInt32(r) && (r - (n + 1)) % 0x1_0000_0000 == 0
  {
    if n == INT_MAX then INT_MIN else n + 1
  }

  /** The version a published entry moves to on update: "1.0.0" for a
    * missing or blank one; otherwise the last '.'-separated part plus one
    * when that part parses as an `int`, and the version followed by ".1"
    * when there is no part or it does not parse. */
  function NextVersion(version: Option<string>): (r: string)
  {
    if version.None? || JavaIsBlank(version.value) then DEFAULT_VERSION
    else
      var v := version.value;
      var parts := JavaSplit(v, '.');
      if |parts| == 0 then v + ".1"
      else match ParseJavaInt(parts[|parts| - 1])
        case None => v + ".1"
        case Some(patch) => Join(parts[..|parts| - 1] + [IntToString(Inc32(patch))], ".")
  }

  /** `incrementVersion`: the parts of the split go into an array, whose
    * last slot is overwritten with the incremented number. */
  method IncrementVersion(version: Option<string>) returns (r: string)
    ensures r == NextVersion(version)
  {
    if version.None? || JavaIsBlank(version.value) {
      return DEFAULT_VERSION;
    }
    var v := version.value;
    var split := JavaSplit(v, '.');
    var parts := new string[|split|](i requires 0 <= i < |split| => split[i]);
    var patchIndex := parts.Length - 1;
    if patchIndex < 0 {
      // parts[-1] is out of bounds; the exception handler answers
      return v + ".1";
    }
    var patch := ParseJavaInt(parts[patchIndex]);
    if patch.None? {
      return v + ".1";
    }
    parts[patchIndex] := IntToString(Inc32(patch.value));
    assert parts[..] == split[..|split| - 1] + [IntToString(Inc32(patch.value))];
    r := Join(parts[..], ".");
  }

  lemma IntToStringShape(i: int)
    ensures |IntToString(i)| > 0
    ensures '.' !in IntToString(i)
    ensures IsDigit(IntToString(i)[|IntToString(i)| - 1])
  {
    var d := NatToString(if i < 0 then -i else i);
    assert All(d, IsDigit);
    if i < 0 {
      assert IntToString(i) == "-" + d;
    }
  }

  /** A missing or blank version starts over at "1.0.0". */
  lemma BlankVersionRestarts(version: Option<string>)
    requires version.None? || JavaIsBlank(version.value)
    ensures NextVersion(version) == DEFAULT_VERSION
  {
  }

  /** A version whose last part is an `int` gets that part incremented (with
    * Java's wrap-around at the top of the range); the other parts are
    * unchanged and the parts are rejoined with '.'. */
  lemma IncrementsLastPart(xs: seq<string>, n: int)
    requires IsInt32(n)
    requires forall i :: 0 <= i < |xs| ==> '.' !in xs[i]
    ensures NextVersion(Some(Join(xs + [IntToString(n)], ".")))
            == Join(xs + [IntToString(Inc32(n))], ".")
  {
    var t := IntToString(n);
    var parts := xs + [t];
    var v := Join(parts, ".");
    IntToStringShape(n);
    JoinEndsWith(xs, t);
    JavaSplitJoin(parts, '.');
    assert parts[..|parts| - 1] == xs;
    ParsePrintedInt(n);
    NextVersionOfParts(v, parts, n);
  }

  /** Joined parts end with the last one's last character. */
  lemma JoinEndsWith(xs: seq<string>, t: string)
    requires |t| > 0 && IsDigit(t[|t| - 1])
    ensures var v := Join(xs + [t], "."); |v| > 0 && v[|v| - 1] == t[|t| - 1]
    ensures NonBlank(Some(Join(xs + [t], ".")))
  {
    JoinSnoc(xs, t, ".");
    var v := Join(xs + [t], ".");
    assert !IsJavaWhitespace(v[|v| - 1]);
  }

  lemma NextVersionOfParts(v: string, parts: seq<string>, n: int)
    requires NonBlank(Some(v)) && JavaSplit(v, '.') == parts && |parts| > 0
    requires IsInt32(n) && ParseJavaInt(parts[|parts| - 1]) == Some(n)
    ensures NextVersion(Some(v)) == Join(parts[..|parts| - 1] + [IntToString(Inc32(n))], ".")
  {
  }

  /** The one case where the number does not grow: the largest `int` wraps
    * around to the smallest. */
  lemma IncrementWrapsAtMax()
    ensures NextVersion(Some(IntToString(INT_MAX))) == IntToString(INT_MIN)
  {
    IncrementsLastPart([], INT_MAX);
    assert [] + [IntToString(INT_MAX)] == [IntToString(INT_MAX)];
    assert [] + [IntToString(INT_MIN)] == [IntToString(INT_MIN)];
  }

  /** A version not ending in a digit or a '.' (a "-beta", say) gets ".1"
    * appended. */
  lemma NonNumericGetsSuffix(v: string)
    requires NonBlank(Some(v)) && !IsDigit(v[|v| - 1]) && v[|v| - 1] != '.'
    ensures NextVersion(Some(v)) == v + ".1"
  {
    JavaSplitLast(v, '.');
    var parts := JavaSplit(v, '.');
    var last := parts[|parts| - 1];
    NotDigitEndNotInt(last);
  }

  /** Java's `parseInt` refuses text whose last character is not a digit. */
  lemma NotDigitEndNotInt(s: string)
    requires |s| > 0 && !IsDigit(s[|s| - 1])
    ensures ParseJavaInt(s).None?
  {
    if |s| > 1 && (s[0] == '-' || s[0] == '+') {
      assert s[1..][|s| - 2] == s[|s| - 1];
    }
  }

  /** The version of a published entry never becomes blank. */
  lemma NextVersionNonBlank(version: Option<string>)
    ensures NonBlank(Some(NextVersion(version)))
  {
    if version.None? || JavaIsBlank(version.value) {
      DefaultVersionNonBlank();
    } else {
      var v := version.value;
      var parts := JavaSplit(v, '.');
      if |parts| == 0 || ParseJavaInt(parts[|parts| - 1]).None? {
        SuffixedNonBlank(v);
      } else {
        var patch := ParseJavaInt(parts[|parts| - 1]).value;
        var t := IntToString(Inc32(patch));
        IntToStringShape(Inc32(patch));
        JoinEndsWith(parts[..|parts| - 1], t);
      }
    }
  }

  lemma DefaultVersionNonBlank()
    ensures NonBlank(Some(DEFAULT_VERSION))
  {
    assert !IsJavaWhitespace(DEFAULT_VERSION[0]);
  }

  lemma SuffixedNonBlank(v: string)
    ensures NonBlank(Some(v + ".1"))
  {
    var r := v + ".1";
    assert !IsJavaWhitespace(r[|r| - 1]);
  }

  // ---------------------------------------------------------------- audit value maps

  /** The values `createValueMap` puts into its map. */
  datatype Value = VNull | VText(text: string) | VNum(num: int) | VList(items: seq<string>)

  function TextOf(s: Option<string>): Value
  {
    if s.None? then VNull else VText(s.value)
  }

  function TimeOf(t: Option<int>): Value
  {
    if t.None? then VNull else VNum(t.value)
  }

  const VALUE_KEYS: set<string> :=
    {"id", "name", "owner", "description", "detailedDescription", "basePath", "version",
     "status", "openApiSpec", "tags", "domains", "createdAt", "updatedAt", "createdBy",
     "updatedBy"}

  /** The value `createValueMap` puts under key `k`. */
  function ValueOf(a: ApiRecord, k: string): Value
  {
    if k == "id" then VNum(a.id)
    else if k == "name" then TextOf(a.name)
    else if k == "owner" then TextOf(a.owner)
    else if k == "description" then TextOf(a.description)
    else if k == "detailedDescription" then TextOf(a.detailedDescription)
    else if k == "basePath" then TextOf(a.basePath)
    else if k == "version" then TextOf(a.version)
    else if k == "status" then TextOf(a.status)
    else if k == "openApiSpec" then TextOf(a.openApiSpec)
    else if k == "tags" then VList(a.tags.GetOr([]))
    else if k == "domains" then VList(a.domains.GetOr([]))
    else if k == "createdAt" then TimeOf(a.audit.createdAt)
    else if k == "updatedAt" then TimeOf(a.audit.updatedAt)
    else if k == "createdBy" then TextOf(a.audit.createdBy)
    else TextOf(a.audit.updatedBy)
  }

  /** `createValueMap`: every column of the entry, with null tag and domain
    * lists written as empty lists. */
  function ValueMap(a: ApiRecord): (m: map<string, Value>)
  {
    map k | k in VALUE_KEYS :: ValueOf(a, k)
  }

  /** An entry with null tag and domain lists read as empty ones. */
  function Normal(a: ApiRecord): ApiRecord
  {
    a.(tags := Some(a.tags.GetOr([])), domains := Some(a.domains.GetOr([])))
  }

  /** The value map captures the whole entry, except that it cannot tell a
    * null list from an empty one. */
  lemma ValueMapFaithful(a: ApiRecord, b: ApiRecord)
    ensures ValueMap(a) == ValueMap(b) <==> Normal(a) == Normal(b)
  {
    if ValueMap(a) == ValueMap(b) {
      SameTexts(a, b);
      SameRest(a, b);
    }
  }

  lemma SameTexts(a: ApiRecord, b: ApiRecord)
    requires ValueMap(a) == ValueMap(b)
    ensures a.id == b.id && a.name == b.name && a.owner == b.owner
    ensures a.description == b.description && a.detailedDescription == b.detailedDescription
    ensures a.basePath == b.basePath && a.version == b.version
  {
    ValueAt(a, b, "id");
    ValueAt(a, b, "name");
    ValueAt(a, b, "owner");
    ValueAt(a, b, "description");
    ValueAt(a, b, "detailedDescription");
    ValueAt(a, b, "basePath");
    ValueAt(a, b, "version");
  }

  lemma SameRest(a: ApiRecord, b: ApiRecord)
    requires ValueMap(a) == ValueMap(b)
    ensures a.status == b.status && a.openApiSpec == b.openApiSpec
    ensures a.tags.GetOr([]) == b.tags.GetOr([]) && a.domains.GetOr([]) == b.domains.GetOr([])
    ensures a.audit == b.audit
  {
    ValueAt(a, b, "status");
    ValueAt(a, b, "openApiSpec");
    ValueAt(a, b, "tags");
    ValueAt(a, b, "domains");
    ValueAt(a, b, "createdAt");
    ValueAt(a, b, "updatedAt");
    ValueAt(a, b, "createdBy");
    ValueAt(a, b, "updatedBy");
  }

  lemma ValueAt(a: ApiRecord, b: ApiRecord, k: string)
    requires ValueMap(a) == ValueMap(b) && k in VALUE_KEYS
    ensures ValueOf(a, k) == ValueOf(b, k)
  {
    assert ValueMap(a)[k] == ValueMap(b)[k];
  }

  // ---------------------------------------------------------------- sorted keys

  /** `String.compareTo` order: lexicographic by character. */
  predicate StrLess(a: string, b: string)
    decreases |a|
  {
    |b| > 0 && (|a| == 0 || a[0] < b[0] || (a[0] == b[0] && StrLess(a[1..], b[1..])))
  }

  lemma {:induction false} StrLessIrreflexive(a: string)
    ensures !StrLess(a, a)
    decreases |a|
  {
    if |a| > 0 {
      StrLessIrreflexive(a[1..]);
    }
  }

  lemma {:induction false} StrLessTransitive(a: string, b: string, c: string)
    requires StrLess(a, b) && StrLess(b, c)
    ensures StrLess(a, c)
    decreases |a|
  {
    if |a| > 0 && a[0] == b[0] && b[0] == c[0] {
      StrLessTransitive(a[1..], b[1..], c[1..]);
    }
  }

  lemma {:induction false} StrLessTotal(a: string, b: string)
    requires a != b
    ensures StrLess(a, b) || StrLess(b, a)
    decreases |a|
  {
    if |a| > 0 && |b| > 0 && a[0] == b[0] {
      assert a == [a[0]] + a[1..] && b == [b[0]] + b[1..];
      StrLessTotal(a[1..], b[1..]);
    }
  }

  predicate Increasing(r: seq<string>)
  {
    forall i, j :: 0 <= i < j < |r| ==> StrLess(r[i], r[j])
  }

  predicate IsLeast(m: string, s: set<string>)
  {
    m in s && forall k :: k in s && k != m ==> StrLess(m, k)
  }

  lemma {:induction false} LeastExists(s: set<string>)
    requires s != {}
    ensures exists m :: IsLeast(m, s)
    decreases |s|
  {
    var y :| y in s;
    if s != {y} {
      var rest := s - {y};
      LeastExists(rest);
      var m :| IsLeast(m, rest);
      if StrLess(y, m) {
        forall k | k in s && k != y
          ensures StrLess(y, k)
        {
          if k != m {
            StrLessTransitive(y, m, k);
          }
        }
        assert IsLeast(y, s);
      } else {
        StrLessTotal(y, m);
        assert IsLeast(m, s);
      }
    } else {
      assert IsLeast(y, s);
    }
  }

  lemma LeastUnique(m1: string, m2: string, s: set<string>)
    requires IsLeast(m1, s) && IsLeast(m2, s)
    ensures m1 == m2
  {
    if m1 != m2 {
      StrLessTransitive(m1, m2, m1);
      StrLessIrreflexive(m1);
    }
  }

  /** The keys of a set in increasing order: a `TreeSet`'s iteration order. */
  ghost function Enumeration(s: set<string>): seq<string>
    decreases |s|
  {
    if s == {} then []
    else
      LeastExists(s);
      var m :| IsLeast(m, s);
      [m] + Enumeration(s - {m})
  }

  /** The enumeration lists every key of the set once, in increasing order. */
  lemma {:induction false} EnumerationSorted(s: set<string>)
    ensures Increasing(Enumeration(s))
    ensures forall k :: k in Enumeration(s) <==> k in s
    decreases |s|
  {
    if s != {} {
      LeastExists(s);
      var m :| IsLeast(m, s);
      EnumerationStep(s, m);
      var rest := Enumeration(s - {m});
      EnumerationSorted(s - {m});
      forall j | 0 <= j < |rest|
        ensures StrLess(m, rest[j])
      {
        assert rest[j] in s - {m};
      }
    }
  }

  lemma EnumerationStep(s: set<string>, m: string)
    requires IsLeast(m, s)
    ensures Enumeration(s) == [m] + Enumeration(s - {m})
  {
    var m' :| IsLeast(m', s) && Enumeration(s) == [m'] + Enumeration(s - {m'});
    LeastUnique(m, m', s);
  }

  lemma TakeLeast(r: seq<string>, rest: set<string>, ks: set<string>, m: string)
    requires r + Enumeration(rest) == Enumeration(ks) && IsLeast(m, rest)
    ensures (r + [m]) + Enumeration(rest - {m}) == Enumeration(ks)
    ensures |rest - {m}| < |rest|
  {
    EnumerationStep(rest, m);
    assert (r + [m]) + Enumeration(rest - {m}) == r + ([m] + Enumeration(rest - {m}));
  }

  /** `new TreeSet<>(keys)`: the least remaining key is taken out until none
    * is left. */
  method SortedKeys(ks: set<string>) returns (r: seq<string>)
    ensures r == Enumeration(ks)
  {
    r := [];
    var rest := ks;
    while rest != {}
      invariant r + Enumeration(rest) == Enumeration(ks)
      decreases |rest|
    {
      LeastExists(rest);
      var m :| IsLeast(m, rest);
      TakeLeast(r, rest, ks, m);
      r := r + [m];
      rest := rest - {m};
    }
  }

  // ---------------------------------------------------------------- diff description

  /** `Map.get`: null for a missing key. */
  function Lookup(m: map<string, Value>, k: string): Value
  {
    if k in m then m[k] else VNull
  }

  /** The keys of `ks`, in order, whose old and new values differ. */
  function Differing(ks: seq<string>, o: map<string, Value>, n: map<string, Value>): (d: seq<string>)
  {
    if ks == [] then []
    else
      var k := ks[|ks| - 1];
      Differing(ks[..|ks| - 1], o, n) + (if Lookup(o, k) != Lookup(n, k) then [k] else [])
  }

  function Describe(diffs: seq<string>): string
  {
    if diffs == [] then NO_CHANGES else CHANGED + Join(diffs, ", ")
  }

  /** The keys of the new map whose values changed, in sorted order. */
  ghost function ChangedKeys(o: map<string, Value>, n: map<string, Value>): seq<string>
  {
    Differing(Enumeration(n.Keys), o, n)
  }

  ghost function DiffText(o: map<string, Value>, n: map<string, Value>): string
  {
    Describe(ChangedKeys(o, n))
  }

  /** `diffDescription`: a loop over the sorted new keys collecting the
    * changed ones. */
  method DiffDescription(o: map<string, Value>, n: map<string, Value>) returns (r: string)
    ensures r == DiffText(o, n)
  {
    var keys := SortedKeys(n.Keys);
    var diffs: seq<string> := [];
    var i := 0;
    while i < |keys|
      invariant 0 <= i <= |keys|
      invariant diffs == Differing(keys[..i], o, n)
    {
      var k := keys[i];
      DifferingStep(keys, i, o, n);
      if Lookup(o, k) != Lookup(n, k) {
        diffs := diffs + [k];
      }
      i := i + 1;
    }
    assert keys[..|keys|] == keys;
    assert diffs == ChangedKeys(o, n);
    r := Describe(diffs);
  }

  lemma DifferingStep(ks: seq<string>, i: nat, o: map<string, Value>, n: map<string, Value>)
    requires i < |ks|
    ensures Differing(ks[..i + 1], o, n)
            == Differing(ks[..i], o, n) + (if Lookup(o, ks[i]) != Lookup(n, ks[i]) then [ks[i]] else [])
  {
    assert ks[..i + 1][..i] == ks[..i];
  }

  lemma {:induction false} DifferingMembers(ks: seq<string>, o: map<string, Value>, n: map<string, Value>)
    ensures forall k :: k in Differing(ks, o, n) <==> k in ks && Lookup(o, k) != Lookup(n, k)
  {
    if ks != [] {
      DifferingMembers(ks[..|ks| - 1], o, n);
      assert ks == ks[..|ks| - 1] + [ks[|ks| - 1]];
    }
  }

  lemma {:induction false} DifferingIncreasing(ks: seq<string>, o: map<string, Value>, n: map<string, Value>)
    requires Increasing(ks)
    ensures Increasing(Differing(ks, o, n))
  {
    if ks != [] {
      var init := ks[..|ks| - 1];
      var k := ks[|ks| - 1];
      assert Increasing(init);
      DifferingIncreasing(init, o, n);
      DifferingMembers(init, o, n);
      var d := Differing(init, o, n);
      forall i | 0 <= i < |d|
        ensures StrLess(d[i], k)
      {
        assert d[i] in init;
      }
    }
  }

  /** The description names exactly the keys of the new map whose value
    * differs from the old map's, in sorted order. */
  lemma ChangedKeysRule(o: map<string, Value>, n: map<string, Value>)
    ensures forall k :: k in ChangedKeys(o, n) <==> k in n && Lookup(o, k) != n[k]
    ensures Increasing(ChangedKeys(o, n))
  {
    EnumerationSorted(n.Keys);
    DifferingMembers(Enumeration(n.Keys), o, n);
    DifferingIncreasing(Enumeration(n.Keys), o, n);
  }

  /** "No changes" exactly when every new value equals the old one. */
  lemma NoChangesIff(o: map<string, Value>, n: map<string, Value>)
    ensures DiffText(o, n) == NO_CHANGES <==> forall k :: k in n ==> Lookup(o, k) == n[k]
  {
    ChangedKeysRule(o, n);
    var c := ChangedKeys(o, n);
    if c != [] {
      assert DiffText(o, n)[0] == 'C';
      assert c[0] in c;
    }
  }

  // ---------------------------------------------------------------- the service state

  datatype AuditEntry = AuditEntry(
    apiId: int, version: Option<string>, action: string, changedBy: Option<string>,
    changedAt: int, oldValues: map<string, Value>, newValues: map<string, Value>,
    description: string)

  datatype State = State(apis: map<int, ApiRecord>, nextId: int, audits: seq<AuditEntry>)

  datatype Outcome<T> = Outcome(result: T, state: State)

  /** Every entry is stored under its own id, below the next id to hand out. */
  predicate WellKeyed(st: State)
  {
    forall id :: id in st.apis ==> st.apis[id].id == id && id < st.nextId
  }

  /** `registerApi`: the new entity is stored under a fresh id, which is returned. */
  function RegisterStep(st: State, req: ApiRequest): Outcome<int>
  {
    var id := st.nextId;
    Outcome(id, st.(apis := st.apis[id := NewRecord(req).(id := id)], nextId := id + 1))
  }

  /** `requireApi` / `getApiDetail`. */
  function RequireApi(st: State, id: int): (r: Result<ApiRecord>)
  {
    if id in st.apis then Ok(st.apis[id]) else Err(Runtime(API_NOT_FOUND))
  }

  /** `updateApi`. The audit entry of a published entry compares the value
    * map of the saved entry with the value map taken before the update
    * (`snapshotFirst`) or, as the code is written, with the value map of
    * the very same mutated object. */
  ghost function UpdateWith(st: State, id: int, req: ApiRequest, user: Option<string>,
                            now: int, snapshotFirst: bool): Outcome<Result<()>>
  {
    if id !in st.apis then Outcome(Err(Runtime(API_NOT_FOUND)), st)
    else
      var e := st.apis[id];
      var published := e.status == Some(PUBLISHED);
      var nextVersion := if published then Some(NextVersion(e.version)) else e.version;
      var u := Applied(e, req, nextVersion);
      var saved := st.(apis := st.apis[id := u]);
      if !published then Outcome(Ok(()), saved)
      else
        var before := ValueMap(if snapshotFirst then e else u);
        var after := ValueMap(u);
        var entry := AuditEntry(id, nextVersion, UPDATE, user, now, before, after,
                                DiffText(before, after));
        Outcome(Ok(()), saved.(audits := st.audits + [entry]))
  }

  ghost function UpdateAsWritten(st: State, id: int, req: ApiRequest, user: Option<string>,
                                 now: int): Outcome<Result<()>>
  {
    UpdateWith(st, id, req, user, now, false)
  }

  ghost function Update(st: State, id: int, req: ApiRequest, user: Option<string>,
                        now: int): Outcome<Result<()>>
  {
    UpdateWith(st, id, req, user, now, true)
  }

  /** An unknown id is refused and changes nothing. A known entry is
    * replaced by the update applied to it, moving to the next version when
    * it is published and keeping its version otherwise; nothing else in the
    * table changes, and one audit entry is added exactly when the entry was
    * published. */
  lemma UpdateRules(st: State, id: int, req: ApiRequest, user: Option<string>, now: int,
                    snapshotFirst: bool)
    ensures var o := UpdateWith(st, id, req, user, now, snapshotFirst);
      && (id !in st.apis ==> o.result == Err(Runtime(API_NOT_FOUND)) && o.state == st)
      && (id in st.apis ==>
            var e := st.apis[id];
            var published := e.status == Some(PUBLISHED);
            && o.result.Ok?
            && o.state.apis.Keys == st.apis.Keys
            && o.state.nextId == st.nextId
            && (forall j :: j in st.apis && j != id ==> o.state.apis[j] == st.apis[j])
            && o.state.apis[id] == Applied(e, req, o.state.apis[id].version)
            && (published ==> o.state.apis[id].version == Some(NextVersion(e.version)))
            && (!published ==> o.state.apis[id].version == e.version)
            && (published <==> |o.state.audits| == |st.audits| + 1)
            && (!published ==> o.state.audits == st.audits))
  {
    if id in st.apis {
      var e := st.apis[id];
      NextVersionNonBlank(e.version);
    }
  }

  /** As written, a published update always records identical old and new
    * values and the description "No changes", whatever the update did. */
  lemma AuditAsWrittenSaysNoChanges(st: State, id: int, req: ApiRequest, user: Option<string>, now: int)
    requires id in st.apis && st.apis[id].status == Some(PUBLISHED)
    ensures var o := UpdateAsWritten(st, id, req, user, now);
      var entry := o.state.audits[|o.state.audits| - 1];
      entry.oldValues == entry.newValues && entry.description == NO_CHANGES
  {
    var o := UpdateAsWritten(st, id, req, user, now);
    var entry := o.state.audits[|o.state.audits| - 1];
    NoChangesIff(entry.oldValues, entry.newValues);
  }

  /** With the old values taken before the update, the audit entry says
    * "No changes" exactly when the update left the entry's value map as it
    * was, and it names every column whose value changed. */
  lemma AuditListsChanges(st: State, id: int, req: ApiRequest, user: Option<string>, now: int)
    requires id in st.apis && st.apis[id].status == Some(PUBLISHED)
    ensures var o := Update(st, id, req, user, now);
      var entry := o.state.audits[|o.state.audits| - 1];
      && entry.oldValues == ValueMap(st.apis[id])
      && entry.newValues == ValueMap(o.state.apis[id])
      && (entry.description == NO_CHANGES <==> Normal(st.apis[id]) == Normal(o.state.apis[id]))
      && (forall k :: k in ChangedKeys(entry.oldValues, entry.newValues)
                      <==> k in VALUE_KEYS && entry.oldValues[k] != entry.newValues[k])
  {
    var o := Update(st, id, req, user, now);
    var entry := o.state.audits[|o.state.audits| - 1];
    NoChangesIff(entry.oldValues, entry.newValues);
    ChangedKeysRule(entry.oldValues, entry.newValues);
    ValueMapFaithful(st.apis[id], o.state.apis[id]);
    if entry.description == NO_CHANGES {
      assert entry.oldValues == entry.newValues;
    }
  }

  /** Renaming a published entry: the audit as written says "No changes",
    * while the intended audit lists the name among the changed columns. */
  lemma RenameAuditExample(st: State, id: int, user: Option<string>, now: int)
    requires id in st.apis && st.apis[id].status == Some(PUBLISHED)
    requires st.apis[id].name == Some("a")
    ensures var req := ApiRequest(Some("b"), None, None, None, None, None, None, None, None, None, None);
      var written := UpdateAsWritten(st, id, req, user, now).state.audits;
      var intended := Update(st, id, req, user, now).state.audits;
      && written[|written| - 1].description == NO_CHANGES
      && intended[|intended| - 1].description != NO_CHANGES
  {
    var req := ApiRequest(Some("b"), None, None, None, None, None, None, None, None, None, None);
    AuditAsWrittenSaysNoChanges(st, id, req, user, now);
    var o := Update(st, id, req, user, now);
    var entry := o.state.audits[|o.state.audits| - 1];
    NoChangesIff(entry.oldValues, entry.newValues);
    assert entry.oldValues["name"] == VText("a");
    assert entry.newValues["name"] == VText("b");
  }

  /** A registered entry gets a fresh id and the mapper's defaults; nothing
    * stored before changes. */
  lemma RegisterRules(st: State, req: ApiRequest)
    requires WellKeyed(st)
    ensures var o := RegisterStep(st, req);
      && o.result !in st.apis
      && o.state.apis[o.result] == NewRecord(req).(id := o.result)
      && o.state.apis.Keys == st.apis.Keys + {o.result}
      && (forall j :: j in st.apis ==> o.state.apis[j] == st.apis[j])
      && o.state.audits == st.audits
  {
  }

  lemma StepsPreserveWellKeyed(st: State, req: ApiRequest, id: int, user: Option<string>, now: int)
    requires WellKeyed(st)
    ensures WellKeyed(RegisterStep(st, req).state)
    ensures WellKeyed(Update(st, id, req, user, now).state)
    ensures WellKeyed(UpdateAsWritten(st, id, req, user, now).state)
  {
  }

  // ---------------------------------------------------------------- listing

  datatype ApiSummary = ApiSummary(
    id: int, name: Option<string>, description: Option<string>, version: Option<string>,
    status: Option<string>, owner: Option<string>, updatedAt: Option<int>,
    tags: Option<seq<string>>, domains: Option<seq<string>>)

  datatype ApiList = ApiList(
    apis: seq<ApiSummary>, totalElements: int, totalPages: int, currentPage: int,
    pageSize: int, hasNext: bool, numberOfElements: int)

  function Summary(a: ApiRecord): ApiSummary
  {
    ApiSummary(a.id, a.name, a.description, a.version, a.status, a.owner,
               a.audit.updatedAt, a.tags, a.domains)
  }

  /** `(int) Math.ceil((double) n / d)`; the quotient of two non-negative
    * `int`s is close enough to exact in a double for the ceiling to be right. */
  function CeilDiv(n: nat, d: nat): (r: nat)
    requires d >= 1
    ensures n == 0 ==> r == 0
    ensures n > 0 ==> (r - 1) * d < n <= r * d
  {
    if n == 0 then 0 else (n - 1) / d + 1
  }

  lemma CeilDivOfPage(n: nat, d: nat)
    requires 1 <= d && n <= d
    ensures CeilDiv(n, d) <= 1
  {
    if n > 0 {
      assert (n - 1) / d == 0;
    }
  }

  /** `getApis`: the summaries of one page of the provider's entries. The
    * counts describe that page only: `hasNext` and `numberOfElements` are
    * never set. */
  function ListPage(content: seq<ApiRecord>, pageNumber: int, pageSize: int): ApiList
  {
    var d := if pageSize < 1 then 1 else pageSize;
    ApiList(seq(|content|, i requires 0 <= i < |content| => Summary(content[i])),
            |content|, CeilDiv(|content|, d), pageNumber, pageSize, false, 0)
  }

  /** One summary per entry of the page, in order; the total is the size of
    * the page, so a page no longer than the page size reports at most one
    * page, and none exactly when it is empty. */
  lemma ListPageRules(content: seq<ApiRecord>, pageNumber: int, pageSize: int)
    ensures var l := ListPage(content, pageNumber, pageSize);
      && |l.apis| == |content| == l.totalElements
      && (forall i :: 0 <= i < |content| ==>
            (l.apis[i].id == content[i].id && l.apis[i].name == content[i].name
             && l.apis[i].version == content[i].version))
      && (l.totalPages == 0 <==> content == [])
      && (|content| <= pageSize ==> l.totalPages <= 1)
      && l.currentPage == pageNumber && l.pageSize == pageSize
  {
    if |content| <= pageSize && pageSize >= 1 {
      CeilDivOfPage(|content|, pageSize);
    }
  }

  // ---------------------------------------------------------------- searching

  /** `searchTags` / `searchDomains`: the store's matches for the lower-cased
    * query, cut to ten. A null query fails on `toLowerCase`. */
  function Suggestions(query: Option<string>, matches: string -> seq<string>): (r: Result<seq<string>>)
    ensures r.Ok? <==> query.Some?
    ensures r.Ok? ==> var all := matches(ToLower(query.value));
      && r.value <= all
      && |r.value| == (if |all| < SUGGESTION_LIMIT then |all| else SUGGESTION_LIMIT)
  {
    if query.None? then Err(NullReference("query"))
    else
      var all := matches(ToLower(query.value));
      Ok(if |all| <= SUGGESTION_LIMIT then all else all[..SUGGESTION_LIMIT])
  }

  /** The filters `searchApis` hands to the store. */
  datatype SearchFilters = SearchFilters(
    query: Option<string>, tags: Option<seq<string>>, domains: Option<seq<string>>,
    owner: Option<string>, statuses: Option<seq<string>>)

  function Filters(query: Option<string>, tags: Option<seq<string>>, domains: Option<seq<string>>,
                   owner: Option<string>, status: Option<string>): SearchFilters
  {
    SearchFilters(query,
                  if tags.None? || tags.value == [] then None else tags,
                  if domains.None? || domains.value == [] then None else domains,
                  owner,
                  if status.None? then None else Some(JavaSplit(status.value, ',')))
  }

  /** An empty tag or domain list filters nothing, like a null one; a
    * status list written as comma-separated names is read back as those
    * names. */
  lemma FiltersRules(query: Option<string>, tags: Option<seq<string>>, domains: Option<seq<string>>,
                     owner: Option<string>, statuses: seq<string>)
    requires |statuses| >= 1 && statuses[|statuses| - 1] != ""
    requires forall i :: 0 <= i < |statuses| ==> ',' !in statuses[i]
    ensures Filters(query, Some([]), domains, owner, None).tags.None?
    ensures Filters(query, tags, Some([]), owner, None).domains.None?
    ensures tags.Some? && tags.value != [] ==> Filters(query, tags, domains, owner, None).tags == tags
    ensures Filters(query, tags, domains, owner, Some(Join(statuses, ","))).statuses == Some(statuses)
  {
    JavaSplitJoin(statuses, ',');
  }

  // ---------------------------------------------------------------- the service

  class ApiManagementService {
    var apis: map<int, ApiRecord>
    var nextId: int
    var audits: seq<AuditEntry>

    function Snapshot(): State
      reads this
    {
      State(apis, nextId, audits)
    }

    predicate Valid()
      reads this
    {
      WellKeyed(Snapshot())
    }

    constructor ()
      ensures Snapshot() == State(map[], 1, []) && Valid()
    {
      apis, nextId, audits := map[], 1, [];
    }

    method RegisterApi(req: ApiRequest) returns (id: int)
      modifies this
      ensures Outcome(id, Snapshot()) == RegisterStep(old(Snapshot()), req)
      ensures old(Valid()) ==> Valid()
    {
      var api := ToNewEntity(req);
      api.id := nextId;
      apis := apis[nextId := api.Record()];
      id := nextId;
      nextId := nextId + 1;
    }

    function GetApiDetail(apiId: int): (r: Result<ApiRecord>)
      reads this
      ensures r.Ok? <==> apiId in apis
      ensures r.Ok? ==> r.value == apis[apiId]
      ensures r.Err? ==> r.error == Runtime(API_NOT_FOUND)
    {
      RequireApi(Snapshot(), apiId)
    }

    /** The mapper writes the update onto the loaded entity and returns that
      * same object, so the old values are read from the updated entity. */
    method UpdateApi(apiId: int, req: ApiRequest, user: Option<string>, now: int) returns (r: Result<()>)
      modifies this
      ensures Outcome(r, Snapshot()) == UpdateAsWritten(old(Snapshot()), apiId, req, user, now)
      ensures old(Valid()) ==> Valid()
    {
      if apiId !in apis {
        return Err(Runtime(API_NOT_FOUND));
      }
      var existing := new Api.FromRecord(apis[apiId]);
      var published := existing.status == Some(PUBLISHED);
      var nextVersion := existing.version;
      if published {
        var v := IncrementVersion(existing.version);
        nextVersion := Some(v);
      }
      var updated := ApplyUpdate(existing, req, nextVersion);
      apis := apis[apiId := updated.Record()];
      if published {
        var oldValues := ValueMap(existing.Record());
        var newValues := ValueMap(updated.Record());
        var d := DiffDescription(oldValues, newValues);
        audits := audits + [AuditEntry(apiId, nextVersion, UPDATE, user, now, oldValues, newValues, d)];
      }
      r := Ok(());
    }
  }
}
