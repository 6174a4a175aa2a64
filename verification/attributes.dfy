/** `ResourceAttributes`: a dataclass whose every assignment goes through a
    guarded `__setattr__` (attributes.py:12-162). The instance dictionary is a
    string-keyed map; values assigned are stored as their `str()` text, except
    the `parameters` dictionary, which is stored as it is. */
module Attributes {
  import opened Wrappers
  import opened Text
  import Endpoint

  /** A Python value handed to an assignment: `None`, a string, or any
      other object together with the text `str()` gives for it. */
  datatype PyValue = PNone | PStr(s: string) | PObj(text: string)

  /** Python's `str(value)`. */
  function Str(v: PyValue): string {
    match v
    case PNone => "None"
    case PStr(s) => s
    case PObj(t) => t
  }

  /** An entry of the instance dictionary: a stored text, the `parameters`
      dictionary, or a value stored as it is (only under `parameters`). */
  datatype Field = FText(s: string) | FParams(d: map<string, string>) | FValue(v: PyValue)

  /** The instance dictionary, `__dict__`. */
  datatype Attrs = Attrs(fields: map<string, Field>)

  datatype AttrError =
    | InvalidServiceString(key: string, value: string)  // ValueError from `__setattr__`
    | ParametersNotADict                                // `parameters[k] = v` on something else

  const ServiceNameName := "service_name"
  const ServiceVersionName := "service_version"
  const OsTypeName := "os_type"
  const OsVersionName := "os_version"
  const PythonVersionName := "python_version"
  const HostnameName := "hostname"
  const PlatformName := "platform"
  const EnvironmentName := "environment"
  const UserIdName := "user_id"
  const ClientSdkVersionName := "client_sdk_version"
  const SchemaVersionName := "schema_version"
  const ParametersName := "parameters"
  const ReadonlyFieldsName := "_readonly_fields"

  /** The fields whose metadata marks them read-only. */
  const ReadonlyNames: seq<string> := [ClientSdkVersionName, SchemaVersionName, ParametersName]

  /** The values `environment` may keep after construction. */
  const ValidEnvironments: seq<string> := ["", "test", "development", "staging", "production"]

  // ---------------------------------------------------------------------
  // The service-string pattern
  // ---------------------------------------------------------------------

  /** The regex class `[a-zA-Z0-9._-]`. */
  predicate IsNameChar(c: char) { IsAlnum(c) || c == '.' || c == '_' || c == '-' }

  /** One to thirty characters of the class. */
  predicate IsNameRun(t: string) {
    1 <= |t| <= 30 && forall i :: 0 <= i < |t| ==> IsNameChar(t[i])
  }

  /** `re.match(r"^[a-zA-Z0-9._-]{1,30}$", s)` succeeds: the run reaches the
      end of the string, or stops just before one final newline (Python's
      `$`). */
  predicate MatchesServicePattern(s: string) {
    IsNameRun(s) || (|s| > 0 && s[|s| - 1] == '\n' && IsNameRun(s[..|s| - 1]))
  }

  /** `_check_valid_string`: drop one final newline, then check the run. */
  function CheckValidString(value: PyValue): (r: bool)
    ensures r ==> 1 <= |Str(value)| <= 31
  {
    IsNameRun(Endpoint.DropFinalNewline(Str(value)))
  }

  /** The check is exactly the regex match on `str(value)`. */
  lemma CheckValidStringMatches(value: PyValue)
    ensures CheckValidString(value) <==> MatchesServicePattern(Str(value))
  {
    var s := Str(value);
    if |s| > 0 && s[|s| - 1] == '\n' {
      assert !IsNameChar(s[|s| - 1]);
    }
  }

  // ---------------------------------------------------------------------
  // The read-only set and its text
  // ---------------------------------------------------------------------

  function Quote(n: string): string { "'" + n + "'" }

  function Items(order: seq<string>): string
    decreases |order|
  {
    if |order| == 0 then ""
    else if |order| == 1 then Quote(order[0])
    else Quote(order[0]) + ", " + Items(order[1..])
  }

  /** `str()` of a set of strings whose iteration order is `order` (Python's
      order depends on string hashing, so it is an input). */
  function SetRepr(order: seq<string>): string { "{" + Items(order) + "}" }

  /** The key is refused as read-only: `_readonly_fields` exists, and the key
      occurs in it. It holds the set's text, so the test is a substring
      test. */
  predicate IsReadonly(a: Attrs, key: string) {
    && ReadonlyFieldsName in a.fields
    && match a.fields[ReadonlyFieldsName]
       case FText(r) => IsSubstring(key, r)
       case FParams(d) => key in d
       case FValue(_) => false
  }

  predicate IsWordChar(c: char) { IsLetter(c) || c == '_' }

  /** Two adjacent word characters of the set's text lie inside one of its
      names: the quotes, commas, blanks and braces separate the names. */
  lemma {:induction false} WordBigramInItems(order: seq<string>, x: char, y: char)
    requires IsWordChar(x) && IsWordChar(y)
    requires HasBigram(Items(order), x, y)
    ensures exists i :: 0 <= i < |order| && HasBigram(order[i], x, y)
    decreases |order|
  {
    var n := order[0];
    if |order| == 1 {
      assert Items(order) == ("'" + n) + "'";
      BigramOfConcat("'" + n, "'", x, y);
      BigramOfConcat("'", n, x, y);
      assert HasBigram(order[0], x, y);
    } else {
      var rest := order[1..];
      assert Items(order) == (("'" + n) + "', ") + Items(rest);
      BigramOfConcat(("'" + n) + "', ", Items(rest), x, y);
      if HasBigram(Items(rest), x, y) {
        WordBigramInItems(rest, x, y);
        var i :| 0 <= i < |rest| && HasBigram(rest[i], x, y);
        assert order[i + 1] == rest[i];
      } else {
        BigramOfConcat("'" + n, "', ", x, y);
        BigramOfConcat("'", n, x, y);
        assert HasBigram(order[0], x, y);
      }
    }
  }

  /** A key holding two adjacent word characters that no read-only name
      holds is not read-only. */
  lemma ForeignKeyNotInRepr(order: seq<string>, k: string, j: int)
    requires 0 <= j < |k| - 1 && IsWordChar(k[j]) && IsWordChar(k[j + 1])
    requires forall i :: 0 <= i < |order| ==> !HasBigram(order[i], k[j], k[j + 1])
    ensures !IsSubstring(k, SetRepr(order))
  {
    if IsSubstring(k, SetRepr(order)) {
      SubstringHasBigrams(k, SetRepr(order), j);
      assert SetRepr(order) == "{" + (Items(order) + "}");
      BigramOfConcat("{", Items(order) + "}", k[j], k[j + 1]);
      BigramOfConcat(Items(order), "}", k[j], k[j + 1]);
      WordBigramInItems(order, k[j], k[j + 1]);
    }
  }

  /** Every name of the set occurs in its text. */
  lemma {:induction false} NameInItems(order: seq<string>, i: int)
    requires 0 <= i < |order|
    ensures IsSubstring(order[i], Items(order))
    decreases |order|
  {
    var n := order[0];
    if i == 0 {
      if |order| == 1 {
        assert Items(order) == "'" + n + "'";
        SubstringOfConcat("'", n, "'");
      } else {
        assert Items(order) == "'" + n + ("', " + Items(order[1..]));
        SubstringOfConcat("'", n, "', " + Items(order[1..]));
      }
    } else {
      NameInItems(order[1..], i - 1);
      assert Items(order) == (Quote(n) + ", ") + Items(order[1..]);
      SubstringShift(order[i], Quote(n) + ", ", Items(order[1..]));
    }
  }

  lemma NamesInRepr(order: seq<string>, i: int)
    requires 0 <= i < |order|
    ensures IsSubstring(order[i], SetRepr(order))
  {
    NameInItems(order, i);
    SubstringShift(order[i], "{", Items(order));
    SubstringExtend(order[i], "{" + Items(order), "}");
  }

  // ---------------------------------------------------------------------
  // Assignment
  // ---------------------------------------------------------------------

  /** What an accepted assignment stores: the value itself under
      `parameters`, its text under every other key. */
  function Stored(key: string, value: PyValue): Field {
    if key == ParametersName then FValue(value) else FText(Str(value))
  }

  /** `__setattr__(key, value)`: a `None` key or value and a read-only key
      are refused with a warning; an invalid service name or version
      raises; anything else is stored. */
  function Assign(a: Attrs, key: Option<string>, value: PyValue): (r: Result<Attrs, AttrError>)
    ensures key.None? || value.PNone? ==> r == Success(a)
    ensures key.Some? && IsReadonly(a, key.value) ==> r == Success(a)
    ensures r.Failure? <==>
              && key.Some? && !value.PNone? && !IsReadonly(a, key.value)
              && (key.value == ServiceNameName || key.value == ServiceVersionName)
              && !MatchesServicePattern(Str(value))
    ensures r.Failure? ==> r.error == InvalidServiceString(key.value, Str(value))
    ensures r.Success? && key.Some? && !value.PNone? && !IsReadonly(a, key.value) ==>
              r.value.fields == a.fields[key.value := Stored(key.value, value)]
  {
    CheckValidStringMatches(value);
    match key
    case None => Success(a)
    case Some(k) =>
      if value.PNone? then Success(a)
      else if IsReadonly(a, k) then Success(a)
      else if (k == ServiceNameName || k == ServiceVersionName) && !CheckValidString(value) then
        Failure(InvalidServiceString(k, Str(value)))
      else Success(Attrs(a.fields[k := Stored(k, value)]))
  }

  /** The dataclass constructor's `self.parameters = dict()`: the same guard,
      storing the dictionary. */
  function AssignParameters(a: Attrs, d: map<string, string>): (r: Attrs)
    ensures IsReadonly(a, ParametersName) ==> r == a
    ensures !IsReadonly(a, ParametersName) ==> r.fields == a.fields[ParametersName := FParams(d)]
  {
    if IsReadonly(a, ParametersName) then a else Attrs(a.fields[ParametersName := FParams(d)])
  }

  /** Once `_readonly_fields` holds the text of a set of the read-only
      names, no assignment changes a read-only field. */
  lemma ReadonlyKept(a: Attrs, order: seq<string>, i: int, value: PyValue)
    requires ReadonlyFieldsName in a.fields && a.fields[ReadonlyFieldsName] == FText(SetRepr(order))
    requires 0 <= i < |order|
    ensures Assign(a, Some(order[i]), value) == Success(a)
  {
    NamesInRepr(order, i);
  }

  // ---------------------------------------------------------------------
  // Construction
  // ---------------------------------------------------------------------

  /** The constructor's arguments; a caller that omits one passes
      `PStr("")`, the field's default. */
  datatype InitArgs = InitArgs(
    serviceName: PyValue, serviceVersion: PyValue,
    osType: PyValue, osVersion: PyValue, pythonVersion: PyValue, hostname: PyValue,
    platform: PyValue, environment: PyValue, userId: PyValue)

  /** What the host reports: `platform.system()`, `platform.release()`,
      `platform.python_version()` and `socket.gethostname()`. */
  datatype Host = Host(system: string, release: string, pythonVersion: string, hostName: string)

  /** A value `__setattr__` rejects for a service key: given, and not
      matching the pattern. */
  predicate Rejected(v: PyValue) { !v.PNone? && !MatchesServicePattern(Str(v)) }

  /** The field holds the text of the argument, or, when the argument was
      `None`, is absent (the class default shows through). */
  predicate Given(a: Attrs, key: string, v: PyValue) {
    if v.PNone? then key !in a.fields else key in a.fields && a.fields[key] == FText(Str(v))
  }

  /** An assignment during the generated `__init__`, before
      `_readonly_fields` exists, of a key that is not checked: it cannot be
      refused or raise, and stores the text unless the value is `None`. */
  function Write(a: Attrs, key: string, v: PyValue): (r: Attrs)
    requires ReadonlyFieldsName !in a.fields
    requires key != ServiceNameName && key != ServiceVersionName && key != ParametersName && key != ReadonlyFieldsName
  {
    if v.PNone? then a else Attrs(a.fields[key := FText(Str(v))])
  }

  /** `Write` is what `__setattr__` does with such a key then: the
      assignment is accepted and stores the text, or nothing for `None`. */
  lemma WriteAssigns(a: Attrs, key: string, v: PyValue)
    requires ReadonlyFieldsName !in a.fields
    requires key != ServiceNameName && key != ServiceVersionName && key != ParametersName && key != ReadonlyFieldsName
    ensures Assign(a, Some(key), v) == Success(Write(a, key, v))
  {
  }

  /** `__init__`'s first two assignments, the checked ones. */
  function ServiceFields(args: InitArgs): (r: Result<Attrs, AttrError>)
    ensures r.Failure? <==> Rejected(args.serviceName) || Rejected(args.serviceVersion)
    ensures r.Failure? ==>
              r.error == if Rejected(args.serviceName) then InvalidServiceString(ServiceNameName, Str(args.serviceName))
                         else InvalidServiceString(ServiceVersionName, Str(args.serviceVersion))
    ensures r.Success? ==> forall k :: k in r.value.fields ==> k == ServiceNameName || k == ServiceVersionName
    ensures r.Success? ==> Given(r.value, ServiceNameName, args.serviceName)
    ensures r.Success? ==> Given(r.value, ServiceVersionName, args.serviceVersion)
  {
    var a1 :- Assign(Attrs(map[]), Some(ServiceNameName), args.serviceName);
    Assign(a1, Some(ServiceVersionName), args.serviceVersion)
  }

  /** `__init__`'s machine fields. */
  function MachineFields(a: Attrs, args: InitArgs): (r: Attrs)
    requires ReadonlyFieldsName !in a.fields
    requires forall k :: k in a.fields ==> k == ServiceNameName || k == ServiceVersionName
    ensures forall k :: k in r.fields ==>
              k in a.fields || k == OsTypeName || k == OsVersionName || k == PythonVersionName || k == HostnameName
    ensures forall k :: k in a.fields ==> k in r.fields && r.fields[k] == a.fields[k]
    ensures Given(r, OsTypeName, args.osType) && Given(r, OsVersionName, args.osVersion)
    ensures Given(r, PythonVersionName, args.pythonVersion) && Given(r, HostnameName, args.hostname)
  {
    var a3 := Write(a, OsTypeName, args.osType);
    var a4 := Write(a3, OsVersionName, args.osVersion);
    var a5 := Write(a4, PythonVersionName, args.pythonVersion);
    Write(a5, HostnameName, args.hostname)
  }

  /** The keys written so far. */
  predicate EarlyKey(k: string) {
    || k == ServiceNameName || k == ServiceVersionName
    || k == OsTypeName || k == OsVersionName || k == PythonVersionName || k == HostnameName
  }

  /** `__init__`'s application fields. */
  function ApplicationFields(a: Attrs, args: InitArgs): (r: Attrs)
    requires ReadonlyFieldsName !in a.fields
    requires forall k :: k in a.fields ==> EarlyKey(k)
    ensures forall k :: k in r.fields ==> k in a.fields || k == PlatformName || k == EnvironmentName || k == UserIdName
    ensures forall k :: k in a.fields ==> k in r.fields && r.fields[k] == a.fields[k]
    ensures Given(r, PlatformName, args.platform) && Given(r, EnvironmentName, args.environment)
    ensures Given(r, UserIdName, args.userId)
  {
    assert !EarlyKey(PlatformName) && !EarlyKey(EnvironmentName) && !EarlyKey(UserIdName);
    var a7 := Write(a, PlatformName, args.platform);
    var a8 := Write(a7, EnvironmentName, args.environment);
    Write(a8, UserIdName, args.userId)
  }

  /** `__init__`'s last field: `parameters`, from its default factory. The
      two version fields have plain defaults and `init=False`, so the
      generated `__init__` leaves them alone; `__post_init__` writes them. */
  function ParametersField(a: Attrs): (r: Attrs)
    requires ReadonlyFieldsName !in a.fields
    ensures ReadonlyFieldsName !in r.fields
    ensures forall k :: k in r.fields <==> k in a.fields || k == ParametersName
    ensures forall k :: k in a.fields && k != ParametersName ==> r.fields[k] == a.fields[k]
    ensures r.fields[ParametersName] == FParams(map[])
  {
    AssignParameters(a, map[])
  }

  /** The dataclass-generated `__init__`: every field it initialises, in
      declaration order, through `__setattr__`. */
  function Init(args: InitArgs): (r: Result<Attrs, AttrError>)
    ensures r.Failure? <==> Rejected(args.serviceName) || Rejected(args.serviceVersion)
    ensures r.Failure? ==>
              r.error == if Rejected(args.serviceName) then InvalidServiceString(ServiceNameName, Str(args.serviceName))
                         else InvalidServiceString(ServiceVersionName, Str(args.serviceVersion))
    ensures r.Success? ==> ReadonlyFieldsName !in r.value.fields
    ensures r.Success? ==> ParametersName in r.value.fields && r.value.fields[ParametersName] == FParams(map[])
    ensures r.Success? ==> ClientSdkVersionName !in r.value.fields && SchemaVersionName !in r.value.fields
  {
    var a2 :- ServiceFields(args);
    var a6 := MachineFields(a2, args);
    var a9 := ApplicationFields(a6, args);
    Success(ParametersField(a9))
  }

  /** After `__init__`, each service field holds its argument's text. */
  lemma InitServiceFields(args: InitArgs)
    requires Init(args).Success?
    ensures Given(Init(args).value, ServiceNameName, args.serviceName)
    ensures Given(Init(args).value, ServiceVersionName, args.serviceVersion)
  {
    var a2 := ServiceFields(args).value;
    var a9 := ApplicationFields(MachineFields(a2, args), args);
    assert Given(a9, ServiceNameName, args.serviceName);
    assert Given(a9, ServiceVersionName, args.serviceVersion);
  }

  /** After `__init__`, each machine field holds its argument's text. */
  lemma InitMachineFields(args: InitArgs)
    requires Init(args).Success?
    ensures Given(Init(args).value, OsTypeName, args.osType)
    ensures Given(Init(args).value, OsVersionName, args.osVersion)
    ensures Given(Init(args).value, PythonVersionName, args.pythonVersion)
    ensures Given(Init(args).value, HostnameName, args.hostname)
  {
    var a6 := MachineFields(ServiceFields(args).value, args);
    var a9 := ApplicationFields(a6, args);
    assert Given(a9, OsTypeName, args.osType);
    assert Given(a9, OsVersionName, args.osVersion);
    assert Given(a9, PythonVersionName, args.pythonVersion);
    assert Given(a9, HostnameName, args.hostname);
  }

  /** After `__init__`, each application field holds its argument's text. */
  lemma InitApplicationFields(args: InitArgs)
    requires Init(args).Success?
    ensures Given(Init(args).value, PlatformName, args.platform)
    ensures Given(Init(args).value, EnvironmentName, args.environment)
    ensures Given(Init(args).value, UserIdName, args.userId)
  {
    var a9 := ApplicationFields(MachineFields(ServiceFields(args).value, args), args);
    assert Given(a9, PlatformName, args.platform);
    assert Given(a9, EnvironmentName, args.environment);
    assert Given(a9, UserIdName, args.userId);
  }

  /** The attribute as `__post_init__` reads it: the instance's text, else
      the class default `""` (a field whose assignment was refused keeps
      the class default). */
  function Read(a: Attrs, key: string): string {
    if key in a.fields && a.fields[key].FText? then a.fields[key].s else ""
  }

  /** The read-only names share no two adjacent characters with the keys
      `__post_init__` writes after `_readonly_fields`. */
  lemma NamesLackOsType()
    ensures forall n :: n in ReadonlyNames ==> !HasBigram(n, 't', 'y')
  {
  }

  lemma NamesLackOsVersion()
    ensures forall n :: n in ReadonlyNames ==> !HasBigram(n, 'o', 's')
  {
  }

  lemma NamesLackPythonVersion()
    ensures forall n :: n in ReadonlyNames ==> !HasBigram(n, 'p', 'y')
  {
  }

  lemma NamesLackHostname()
    ensures forall n :: n in ReadonlyNames ==> !HasBigram(n, 'h', 'o')
  {
  }

  lemma NamesLackEnvironment()
    ensures forall n :: n in ReadonlyNames ==> !HasBigram(n, 'n', 'v')
  {
  }

  /** Those keys are therefore not read-only. */
  lemma PostInitKeysWritable(order: seq<string>)
    requires forall i :: 0 <= i < |order| ==> order[i] in ReadonlyNames
    ensures !IsSubstring(OsTypeName, SetRepr(order))
    ensures !IsSubstring(OsVersionName, SetRepr(order))
    ensures !IsSubstring(PythonVersionName, SetRepr(order))
    ensures !IsSubstring(HostnameName, SetRepr(order))
    ensures !IsSubstring(EnvironmentName, SetRepr(order))
  {
    NamesLackOsType();
    ForeignKeyNotInRepr(order, OsTypeName, 3);
    NamesLackOsVersion();
    ForeignKeyNotInRepr(order, OsVersionName, 0);
    NamesLackPythonVersion();
    ForeignKeyNotInRepr(order, PythonVersionName, 0);
    NamesLackHostname();
    ForeignKeyNotInRepr(order, HostnameName, 0);
    NamesLackEnvironment();
    ForeignKeyNotInRepr(order, EnvironmentName, 1);
  }

  /** Writes a key known not to be refused. */
  function Put(a: Attrs, key: string, s: string): (r: Attrs)
    requires !IsReadonly(a, key) && key != ServiceNameName && key != ServiceVersionName && key != ParametersName
    ensures r.fields == a.fields[key := FText(s)]
  {
    Attrs(a.fields[key := FText(s)])
  }

  /** `Put` is what `__setattr__` does with such a key: the assignment is
      accepted and stores the text. */
  lemma PutAssigns(a: Attrs, key: string, s: string)
    requires !IsReadonly(a, key) && key != ServiceNameName && key != ServiceVersionName && key != ParametersName
    ensures Assign(a, Some(key), PStr(s)) == Success(Put(a, key, s))
  {
  }

  /** `environment.strip().lower()`, reset to `""` outside the five valid
      names. */
  function NormalEnvironment(e: string): (r: string)
    ensures r in ValidEnvironments
    ensures Lower(Strip(e)) in ValidEnvironments ==> r == Lower(Strip(e))
  {
    var n := Lower(Strip(e));
    if n in ValidEnvironments then n else ""
  }

  /** `__post_init__`'s first half: the read-only values again, then the
      read-only set, stored as its text. */
  function MarkReadonly(a: Attrs, sdkVersion: string, schemaVersion: string, order: seq<string>): (r: Attrs)
    requires ReadonlyFieldsName !in a.fields
    ensures forall k :: k in a.fields ==> k in r.fields
    ensures forall k :: k in a.fields && k != ClientSdkVersionName && k != SchemaVersionName ==> r.fields[k] == a.fields[k]
    ensures ReadonlyFieldsName in r.fields && ClientSdkVersionName in r.fields && SchemaVersionName in r.fields
    ensures forall k :: k in r.fields && k != ClientSdkVersionName && k != SchemaVersionName && k != ReadonlyFieldsName ==>
              k in a.fields
    ensures r.fields[ReadonlyFieldsName] == FText(SetRepr(order))
    ensures r.fields[ClientSdkVersionName] == FText(sdkVersion)
    ensures r.fields[SchemaVersionName] == FText(schemaVersion)
    ensures forall k :: k != ClientSdkVersionName && k != SchemaVersionName && k != ReadonlyFieldsName ==>
              Read(r, k) == Read(a, k)
  {
    var a1 := Put(a, ClientSdkVersionName, sdkVersion);
    var a2 := Put(a1, SchemaVersionName, schemaVersion);
    Put(a2, ReadonlyFieldsName, SetRepr(order))
  }

  /** Writes `value` under `key` when the attribute reads empty. */
  function FillIfEmpty(a: Attrs, key: string, value: string): (r: Attrs)
    requires key != ServiceNameName && key != ServiceVersionName && key != ParametersName && key != ReadonlyFieldsName
    requires !IsReadonly(a, key)
    ensures forall k :: k != key ==> (k in r.fields <==> k in a.fields)
    ensures forall k :: k != key && k in a.fields ==> r.fields[k] == a.fields[k]
    ensures Read(r, key) == if Read(a, key) == "" then value else Read(a, key)
  {
    if Read(a, key) == "" then Put(a, key, value) else a
  }

  /** Empty OS fields are filled from the host, the pair together when
      either is empty. */
  function OsDefaults(a: Attrs, host: Host): (r: Attrs)
    requires !IsReadonly(a, OsTypeName) && !IsReadonly(a, OsVersionName)
    ensures forall k :: k != OsTypeName && k != OsVersionName ==> (k in r.fields <==> k in a.fields)
    ensures forall k :: k != OsTypeName && k != OsVersionName && k in a.fields ==> r.fields[k] == a.fields[k]
    ensures Read(a, OsTypeName) != "" && Read(a, OsVersionName) != "" ==> r == a
    ensures Read(a, OsTypeName) == "" || Read(a, OsVersionName) == "" ==>
              Read(r, OsTypeName) == host.system && Read(r, OsVersionName) == host.release
  {
    if Read(a, OsTypeName) == "" || Read(a, OsVersionName) == "" then
      var b := Put(a, OsTypeName, host.system);
      assert ReadonlyFieldsName in b.fields ==> b.fields[ReadonlyFieldsName] == a.fields[ReadonlyFieldsName];
      Put(b, OsVersionName, host.release)
    else a
  }

  /** `environment` stripped and lower-cased, then reset to `""` unless
      valid. */
  function CheckEnvironment(a: Attrs): (r: Attrs)
    requires !IsReadonly(a, EnvironmentName)
    ensures forall k :: k in r.fields <==> k in a.fields || k == EnvironmentName
    ensures forall k :: k in a.fields && k != EnvironmentName ==> r.fields[k] == a.fields[k]
    ensures r.fields[EnvironmentName] == FText(NormalEnvironment(Read(a, EnvironmentName)))
    ensures forall k :: k != EnvironmentName ==> Read(r, k) == Read(a, k)
  {
    var e := Lower(Strip(Read(a, EnvironmentName)));
    var a1 := Put(a, EnvironmentName, e);
    if e in ValidEnvironments then a1 else Put(a1, EnvironmentName, "")
  }

  /** The entry under `k` is the same before and after. */
  predicate Keeps(a: Attrs, r: Attrs, k: string) {
    (k in r.fields <==> k in a.fields) && (k in a.fields ==> r.fields[k] == a.fields[k])
  }

  /** The host defaults `__post_init__` applies between the read-only
      marking and the environment check: the OS pair, then the Python
      version and the host name. */
  function HostDefaults(a: Attrs, host: Host): (r: Attrs)
    requires !IsReadonly(a, OsTypeName) && !IsReadonly(a, OsVersionName)
    requires !IsReadonly(a, PythonVersionName) && !IsReadonly(a, HostnameName)
    ensures forall k :: k != OsTypeName && k != OsVersionName && k != PythonVersionName && k != HostnameName ==>
              (k in r.fields <==> k in a.fields)
    ensures forall k :: (k != OsTypeName && k != OsVersionName && k != PythonVersionName && k != HostnameName
                         && k in a.fields) ==> r.fields[k] == a.fields[k]
    ensures Keeps(a, r, ReadonlyFieldsName) && Keeps(a, r, ClientSdkVersionName) && Keeps(a, r, SchemaVersionName)
    ensures Read(r, EnvironmentName) == Read(a, EnvironmentName)
  {
    var a1 := OsDefaults(a, host);
    assert ReadonlyFieldsName in a1.fields <==> ReadonlyFieldsName in a.fields;
    assert ReadonlyFieldsName in a.fields ==> a1.fields[ReadonlyFieldsName] == a.fields[ReadonlyFieldsName];
    var a2 := FillIfEmpty(a1, PythonVersionName, host.pythonVersion);
    assert ReadonlyFieldsName in a2.fields <==> ReadonlyFieldsName in a.fields;
    assert ReadonlyFieldsName in a.fields ==> a2.fields[ReadonlyFieldsName] == a.fields[ReadonlyFieldsName];
    FillIfEmpty(a2, HostnameName, host.hostName)
  }

  /** What the host defaults read back: the OS pair from the host when
      either reads empty, else both kept; the Python version and the host
      name from the host when each reads empty. */
  lemma HostDefaultsReads(a: Attrs, host: Host)
    requires !IsReadonly(a, OsTypeName) && !IsReadonly(a, OsVersionName)
    requires !IsReadonly(a, PythonVersionName) && !IsReadonly(a, HostnameName)
    ensures var r := HostDefaults(a, host);
            if Read(a, OsTypeName) == "" || Read(a, OsVersionName) == "" then
              Read(r, OsTypeName) == host.system && Read(r, OsVersionName) == host.release
            else
              Read(r, OsTypeName) == Read(a, OsTypeName) && Read(r, OsVersionName) == Read(a, OsVersionName)
    ensures var r := HostDefaults(a, host);
            && Read(r, PythonVersionName) == (if Read(a, PythonVersionName) == "" then host.pythonVersion
                                              else Read(a, PythonVersionName))
            && Read(r, HostnameName) == (if Read(a, HostnameName) == "" then host.hostName else Read(a, HostnameName))
  {
    var a1 := OsDefaults(a, host);
    assert ReadonlyFieldsName in a1.fields <==> ReadonlyFieldsName in a.fields;
    assert ReadonlyFieldsName in a.fields ==> a1.fields[ReadonlyFieldsName] == a.fields[ReadonlyFieldsName];
    var a2 := FillIfEmpty(a1, PythonVersionName, host.pythonVersion);
    assert ReadonlyFieldsName in a2.fields <==> ReadonlyFieldsName in a.fields;
    assert ReadonlyFieldsName in a.fields ==> a2.fields[ReadonlyFieldsName] == a.fields[ReadonlyFieldsName];
  }

  /** `__post_init__` up to the environment check: the read-only marking,
      then the host defaults. */
  function Prepare(a: Attrs, sdkVersion: string, schemaVersion: string, order: seq<string>, host: Host): (r: Attrs)
    requires ReadonlyFieldsName !in a.fields
    requires forall i :: 0 <= i < |order| ==> order[i] in ReadonlyNames
    ensures ReadonlyFieldsName in r.fields && ClientSdkVersionName in r.fields && SchemaVersionName in r.fields
    ensures r.fields[ReadonlyFieldsName] == FText(SetRepr(order))
    ensures r.fields[ClientSdkVersionName] == FText(sdkVersion)
    ensures r.fields[SchemaVersionName] == FText(schemaVersion)
    ensures Read(r, EnvironmentName) == Read(a, EnvironmentName)
    ensures !IsReadonly(r, EnvironmentName)
  {
    PostInitKeysWritable(order);
    var a1 := MarkReadonly(a, sdkVersion, schemaVersion, order);
    HostDefaults(a1, host)
  }

  /** `__post_init__`. */
  function PostInit(a: Attrs, sdkVersion: string, schemaVersion: string, order: seq<string>, host: Host): (r: Attrs)
    requires ReadonlyFieldsName !in a.fields
    requires forall i :: 0 <= i < |order| ==> order[i] in ReadonlyNames
    ensures ReadonlyFieldsName in r.fields && ClientSdkVersionName in r.fields
    ensures SchemaVersionName in r.fields && EnvironmentName in r.fields
    ensures r.fields[ReadonlyFieldsName] == FText(SetRepr(order))
    ensures r.fields[ClientSdkVersionName] == FText(sdkVersion)
    ensures r.fields[SchemaVersionName] == FText(schemaVersion)
    ensures r.fields[EnvironmentName] == FText(NormalEnvironment(Read(a, EnvironmentName)))
  {
    CheckEnvironment(Prepare(a, sdkVersion, schemaVersion, order, host))
  }

  /** `__post_init__` removes no field. */
  lemma PostInitKeepsKeys(a: Attrs, sdkVersion: string, schemaVersion: string, order: seq<string>, host: Host)
    requires ReadonlyFieldsName !in a.fields
    requires forall i :: 0 <= i < |order| ==> order[i] in ReadonlyNames
    ensures forall k :: k in a.fields ==> k in PostInit(a, sdkVersion, schemaVersion, order, host).fields
  {
    PostInitKeysWritable(order);
    var a1 := MarkReadonly(a, sdkVersion, schemaVersion, order);
    var a2 := HostDefaults(a1, host);
    assert forall k :: k in a.fields ==> k in a2.fields;
  }

  /** `__post_init__` leaves `parameters` as it was. */
  lemma PostInitKeepsParameters(a: Attrs, sdkVersion: string, schemaVersion: string, order: seq<string>, host: Host)
    requires ReadonlyFieldsName !in a.fields
    requires forall i :: 0 <= i < |order| ==> order[i] in ReadonlyNames
    requires ParametersName in a.fields
    ensures ParametersName in PostInit(a, sdkVersion, schemaVersion, order, host).fields
    ensures PostInit(a, sdkVersion, schemaVersion, order, host).fields[ParametersName] == a.fields[ParametersName]
  {
    PostInitKeysWritable(order);
    var a1 := MarkReadonly(a, sdkVersion, schemaVersion, order);
    var a2 := HostDefaults(a1, host);
    assert a2.fields[ParametersName] == a.fields[ParametersName];
  }

  /** `__post_init__` touches no field besides the ones it marks, fills
      or normalises. */
  lemma PostInitKeepsOthers(a: Attrs, sdkVersion: string, schemaVersion: string, order: seq<string>, host: Host, k: string)
    requires ReadonlyFieldsName !in a.fields
    requires forall i :: 0 <= i < |order| ==> order[i] in ReadonlyNames
    requires k != ClientSdkVersionName && k != SchemaVersionName && k != ReadonlyFieldsName && k != EnvironmentName
    requires k != OsTypeName && k != OsVersionName && k != PythonVersionName && k != HostnameName
    ensures Keeps(a, PostInit(a, sdkVersion, schemaVersion, order, host), k)
  {
    PostInitKeysWritable(order);
    var a1 := MarkReadonly(a, sdkVersion, schemaVersion, order);
    assert Keeps(a, a1, k);
    var a2 := HostDefaults(a1, host);
    assert Keeps(a1, a2, k);
  }

  /** The keys `__post_init__` fills from the host differ from the ones it
      marks or normalises. */
  lemma HostKeysDistinct()
    ensures forall k :: k in [OsTypeName, OsVersionName, PythonVersionName, HostnameName] ==>
              && k != EnvironmentName && k != ClientSdkVersionName && k != SchemaVersionName
              && k != ReadonlyFieldsName && k != ParametersName
  {
  }

  /** `__post_init__` fills the OS pair from the host when either reads
      empty, and otherwise keeps both. */
  lemma PostInitOs(a: Attrs, sdkVersion: string, schemaVersion: string, order: seq<string>, host: Host)
    requires ReadonlyFieldsName !in a.fields
    requires forall i :: 0 <= i < |order| ==> order[i] in ReadonlyNames
    ensures var r := PostInit(a, sdkVersion, schemaVersion, order, host);
            if Read(a, OsTypeName) == "" || Read(a, OsVersionName) == "" then
              Read(r, OsTypeName) == host.system && Read(r, OsVersionName) == host.release
            else
              Read(r, OsTypeName) == Read(a, OsTypeName) && Read(r, OsVersionName) == Read(a, OsVersionName)
  {
    PostInitKeysWritable(order);
    HostKeysDistinct();
    var a1 := MarkReadonly(a, sdkVersion, schemaVersion, order);
    assert Read(a1, OsTypeName) == Read(a, OsTypeName) && Read(a1, OsVersionName) == Read(a, OsVersionName);
    HostDefaultsReads(a1, host);
    var a2 := HostDefaults(a1, host);
    var r := CheckEnvironment(a2);
    assert Read(r, OsTypeName) == Read(a2, OsTypeName) && Read(r, OsVersionName) == Read(a2, OsVersionName);
  }

  /** `__post_init__` fills the Python version and the host name from the
      host when they read empty. */
  lemma PostInitHostFields(a: Attrs, sdkVersion: string, schemaVersion: string, order: seq<string>, host: Host)
    requires ReadonlyFieldsName !in a.fields
    requires forall i :: 0 <= i < |order| ==> order[i] in ReadonlyNames
    ensures var r := PostInit(a, sdkVersion, schemaVersion, order, host);
            Read(r, PythonVersionName) == if Read(a, PythonVersionName) == "" then host.pythonVersion
                                          else Read(a, PythonVersionName)
    ensures var r := PostInit(a, sdkVersion, schemaVersion, order, host);
            Read(r, HostnameName) == if Read(a, HostnameName) == "" then host.hostName else Read(a, HostnameName)
  {
    PostInitKeysWritable(order);
    HostKeysDistinct();
    var a1 := MarkReadonly(a, sdkVersion, schemaVersion, order);
    assert Read(a1, PythonVersionName) == Read(a, PythonVersionName) && Read(a1, HostnameName) == Read(a, HostnameName);
    HostDefaultsReads(a1, host);
    var a2 := HostDefaults(a1, host);
    var r := CheckEnvironment(a2);
    assert Read(r, PythonVersionName) == Read(a2, PythonVersionName) && Read(r, HostnameName) == Read(a2, HostnameName);
  }

  /** `ResourceAttributes(...)`: the generated constructor, then
      `__post_init__`. */
  function Construct(args: InitArgs, sdkVersion: string, schemaVersion: string, order: seq<string>, host: Host)
    : (r: Result<Attrs, AttrError>)
    requires forall i :: 0 <= i < |order| ==> order[i] in ReadonlyNames
    ensures r.Failure? <==> Rejected(args.serviceName) || Rejected(args.serviceVersion)
    ensures r.Failure? ==>
              r.error == if Rejected(args.serviceName) then InvalidServiceString(ServiceNameName, Str(args.serviceName))
                         else InvalidServiceString(ServiceVersionName, Str(args.serviceVersion))
    ensures r.Success? ==> ReadonlyFieldsName in r.value.fields && r.value.fields[ReadonlyFieldsName] == FText(SetRepr(order))
    ensures r.Success? ==> ClientSdkVersionName in r.value.fields && r.value.fields[ClientSdkVersionName] == FText(sdkVersion)
    ensures r.Success? ==> SchemaVersionName in r.value.fields && r.value.fields[SchemaVersionName] == FText(schemaVersion)
  {
    var a :- Init(args);
    Success(PostInit(a, sdkVersion, schemaVersion, order, host))
  }

  /** The text an argument leaves in its field: `""` (the class default)
      for `None`. */
  function Supplied(v: PyValue): string {
    if v.PNone? then "" else Str(v)
  }

  /** A constructed object refuses every later assignment to a read-only
      field, and its `parameters` starts empty. */
  lemma ConstructReadonly(args: InitArgs, sdkVersion: string, schemaVersion: string, order: seq<string>, host: Host)
    requires forall i :: 0 <= i < |order| ==> order[i] in ReadonlyNames
    requires forall n :: n in ReadonlyNames ==> n in order
    requires Construct(args, sdkVersion, schemaVersion, order, host).Success?
    ensures forall n :: n in ReadonlyNames ==> IsReadonly(Construct(args, sdkVersion, schemaVersion, order, host).value, n)
    ensures ParametersName in Construct(args, sdkVersion, schemaVersion, order, host).value.fields
    ensures Construct(args, sdkVersion, schemaVersion, order, host).value.fields[ParametersName] == FParams(map[])
  {
    var a := Init(args).value;
    PostInitKeepsParameters(a, sdkVersion, schemaVersion, order, host);
    var r := PostInit(a, sdkVersion, schemaVersion, order, host);
    forall n | n in ReadonlyNames
      ensures IsReadonly(r, n)
    {
      var i :| 0 <= i < |order| && order[i] == n;
      NamesInRepr(order, i);
    }
  }

  /** A field given an argument reads back the argument's text, `""` for
      `None`. */
  lemma GivenRead(a: Attrs, key: string, v: PyValue)
    requires Given(a, key, v)
    ensures Read(a, key) == Supplied(v)
  {
  }

  /** A constructed object is the `__init__` result after `__post_init__`. */
  lemma ConstructIsPostInit(args: InitArgs, sdkVersion: string, schemaVersion: string, order: seq<string>, host: Host)
    requires forall i :: 0 <= i < |order| ==> order[i] in ReadonlyNames
    requires Construct(args, sdkVersion, schemaVersion, order, host).Success?
    ensures Init(args).Success?
    ensures Construct(args, sdkVersion, schemaVersion, order, host).value ==
              PostInit(Init(args).value, sdkVersion, schemaVersion, order, host)
  {
  }

  /** A constructed object's OS pair comes from the host when either
      argument was empty or `None`, and from the arguments otherwise. */
  lemma ConstructOsDefaults(args: InitArgs, sdkVersion: string, schemaVersion: string, order: seq<string>, host: Host)
    requires forall i :: 0 <= i < |order| ==> order[i] in ReadonlyNames
    requires Construct(args, sdkVersion, schemaVersion, order, host).Success?
    ensures var r := Construct(args, sdkVersion, schemaVersion, order, host).value;
            if Supplied(args.osType) == "" || Supplied(args.osVersion) == "" then
              Read(r, OsTypeName) == host.system && Read(r, OsVersionName) == host.release
            else
              Read(r, OsTypeName) == Supplied(args.osType) && Read(r, OsVersionName) == Supplied(args.osVersion)
  {
    ConstructIsPostInit(args, sdkVersion, schemaVersion, order, host);
    InitMachineFields(args);
    var a := Init(args).value;
    GivenRead(a, OsTypeName, args.osType);
    GivenRead(a, OsVersionName, args.osVersion);
    PostInitOs(a, sdkVersion, schemaVersion, order, host);
  }

  /** A constructed object's Python version comes from the host when the
      argument was empty or `None`, and from the argument otherwise. */
  lemma ConstructPythonVersion(args: InitArgs, sdkVersion: string, schemaVersion: string, order: seq<string>, host: Host)
    requires forall i :: 0 <= i < |order| ==> order[i] in ReadonlyNames
    requires Construct(args, sdkVersion, schemaVersion, order, host).Success?
    ensures Read(Construct(args, sdkVersion, schemaVersion, order, host).value, PythonVersionName) ==
              if Supplied(args.pythonVersion) == "" then host.pythonVersion else Supplied(args.pythonVersion)
  {
    ConstructIsPostInit(args, sdkVersion, schemaVersion, order, host);
    InitMachineFields(args);
    var a := Init(args).value;
    GivenRead(a, PythonVersionName, args.pythonVersion);
    PostInitHostFields(a, sdkVersion, schemaVersion, order, host);
  }

  /** A constructed object's host name comes from the host when the
      argument was empty or `None`, and from the argument otherwise. */
  lemma ConstructHostname(args: InitArgs, sdkVersion: string, schemaVersion: string, order: seq<string>, host: Host)
    requires forall i :: 0 <= i < |order| ==> order[i] in ReadonlyNames
    requires Construct(args, sdkVersion, schemaVersion, order, host).Success?
    ensures Read(Construct(args, sdkVersion, schemaVersion, order, host).value, HostnameName) ==
              if Supplied(args.hostname) == "" then host.hostName else Supplied(args.hostname)
  {
    ConstructIsPostInit(args, sdkVersion, schemaVersion, order, host);
    InitMachineFields(args);
    var a := Init(args).value;
    GivenRead(a, HostnameName, args.hostname);
    PostInitHostFields(a, sdkVersion, schemaVersion, order, host);
  }

  /** A constructed object's environment is its argument stripped and
      lower-cased when that is one of the five valid names, else `""`. */
  lemma ConstructEnvironment(args: InitArgs, sdkVersion: string, schemaVersion: string, order: seq<string>, host: Host)
    requires forall i :: 0 <= i < |order| ==> order[i] in ReadonlyNames
    requires Construct(args, sdkVersion, schemaVersion, order, host).Success?
    ensures EnvironmentName in Construct(args, sdkVersion, schemaVersion, order, host).value.fields
    ensures Construct(args, sdkVersion, schemaVersion, order, host).value.fields[EnvironmentName] ==
              FText(NormalEnvironment(Supplied(args.environment)))
  {
    InitApplicationFields(args);
    var a := Init(args).value;
    assert Read(a, EnvironmentName) == Supplied(args.environment);
  }

  /** A constructed object holds the service fields and `platform` exactly
      when their arguments were not `None` (a `None` is refused, leaving
      only the class attribute), and always holds `parameters`. */
  lemma ConstructKeys(args: InitArgs, sdkVersion: string, schemaVersion: string, order: seq<string>, host: Host)
    requires forall i :: 0 <= i < |order| ==> order[i] in ReadonlyNames
    requires Construct(args, sdkVersion, schemaVersion, order, host).Success?
    ensures var r := Construct(args, sdkVersion, schemaVersion, order, host).value;
            && (ServiceNameName in r.fields <==> !args.serviceName.PNone?)
            && (ServiceVersionName in r.fields <==> !args.serviceVersion.PNone?)
            && (PlatformName in r.fields <==> !args.platform.PNone?)
            && ParametersName in r.fields
  {
    InitServiceFields(args);
    InitApplicationFields(args);
    var a := Init(args).value;
    PostInitKeepsOthers(a, sdkVersion, schemaVersion, order, host, ServiceNameName);
    PostInitKeepsOthers(a, sdkVersion, schemaVersion, order, host, ServiceVersionName);
    PostInitKeepsOthers(a, sdkVersion, schemaVersion, order, host, PlatformName);
    PostInitKeepsOthers(a, sdkVersion, schemaVersion, order, host, ParametersName);
  }

  // ---------------------------------------------------------------------
  // Reading and bulk setting
  // ---------------------------------------------------------------------

  /** `_get_attributes`: every instance field except `_readonly_fields`. */
  function GetAttributes(a: Attrs): (r: map<string, Field>)
    ensures forall k :: k in r <==> k in a.fields && k != ReadonlyFieldsName
    ensures forall k :: k in r ==> r[k] == a.fields[k]
  {
    map k | k in a.fields && k != ReadonlyFieldsName :: a.fields[k]
  }

  /** The object after `set_attributes`, and the exception that stopped it
      part-way, if any (the assignments before it stay made). */
  datatype Applied = Applied(attrs: Attrs, raised: Option<AttrError>)

  /** `set_attributes(**kwargs)`: a key that is already a field goes through
      `__setattr__`; any other key is written into `parameters` as text. */
  function SetAttributes(a: Attrs, kwargs: seq<(string, PyValue)>): (r: Applied)
    ensures r.attrs.fields.Keys == a.fields.Keys
    ensures r.raised.Some? && r.raised.value.InvalidServiceString? ==>
              exists i :: 0 <= i < |kwargs| && kwargs[i].0 == r.raised.value.key && Rejected(kwargs[i].1)
                          && (kwargs[i].0 == ServiceNameName || kwargs[i].0 == ServiceVersionName)
    decreases |kwargs|
  {
    if |kwargs| == 0 then Applied(a, None)
    else
      var (k, v) := kwargs[0];
      if k in a.fields then
        match Assign(a, Some(k), v)
        case Failure(e) => Applied(a, Some(e))
        case Success(b) => SetAttributes(b, kwargs[1..])
      else
        match Lookup(a, ParametersName)
        case Some(FParams(d)) =>
          SetAttributes(Attrs(a.fields[ParametersName := FParams(d[k := Str(v)])]), kwargs[1..])
        case _ => Applied(a, Some(ParametersNotADict))
  }

  function Lookup(a: Attrs, key: string): Option<Field> {
    if key in a.fields then Some(a.fields[key]) else None
  }

  /** The keys of the keyword arguments. */
  function KwargKeys(kwargs: seq<(string, PyValue)>): set<string> {
    set i | 0 <= i < |kwargs| :: kwargs[i].0
  }

  /** Keyword arguments that name no field all land in `parameters`, as
      text, over whatever it held; nothing else changes. Python's keyword
      arguments have distinct names. */
  lemma {:induction false} SetAttributesExtras(a: Attrs, kwargs: seq<(string, PyValue)>, d: map<string, string>)
    requires ParametersName in a.fields && a.fields[ParametersName] == FParams(d)
    requires forall i :: 0 <= i < |kwargs| ==> kwargs[i].0 !in a.fields
    requires forall i, j :: 0 <= i < j < |kwargs| ==> kwargs[i].0 != kwargs[j].0
    ensures var r := SetAttributes(a, kwargs);
            && r.raised.None?
            && (forall k :: k != ParametersName && k in a.fields ==> r.attrs.fields[k] == a.fields[k])
            && r.attrs.fields[ParametersName].FParams?
            && r.attrs.fields[ParametersName].d.Keys == d.Keys + KwargKeys(kwargs)
            && (forall i :: 0 <= i < |kwargs| ==> r.attrs.fields[ParametersName].d[kwargs[i].0] == Str(kwargs[i].1))
            && (forall k :: k in d && k !in KwargKeys(kwargs) ==> r.attrs.fields[ParametersName].d[k] == d[k])
    decreases |kwargs|
  {
    if |kwargs| > 0 {
      var (k, v) := kwargs[0];
      var rest := kwargs[1..];
      var d1 := d[k := Str(v)];
      var a1 := Attrs(a.fields[ParametersName := FParams(d1)]);
      assert SetAttributes(a, kwargs) == SetAttributes(a1, rest);
      assert forall i :: 0 <= i < |rest| ==> rest[i] == kwargs[i + 1];
      SetAttributesExtras(a1, rest, d1);
      assert KwargKeys(kwargs) == {k} + KwargKeys(rest) by {
        forall x | x in KwargKeys(kwargs) ensures x in {k} + KwargKeys(rest) {
          var i :| 0 <= i < |kwargs| && kwargs[i].0 == x;
          if i > 0 { assert rest[i - 1].0 == x; }
        }
      }
      assert k !in KwargKeys(rest);
    }
  }

  /** While `_readonly_fields` holds the text of the read-only set,
      `set_attributes` changes neither version field nor that text, unless a
      keyword argument names `_readonly_fields` itself. */
  lemma {:induction false} SetAttributesKeepsReadonly(a: Attrs, kwargs: seq<(string, PyValue)>, order: seq<string>)
    requires ReadonlyFieldsName in a.fields && a.fields[ReadonlyFieldsName] == FText(SetRepr(order))
    requires ClientSdkVersionName in order && SchemaVersionName in order
    requires forall i :: 0 <= i < |kwargs| ==> kwargs[i].0 != ReadonlyFieldsName
    ensures var r := SetAttributes(a, kwargs).attrs;
            Keeps(a, r, ReadonlyFieldsName) && Keeps(a, r, ClientSdkVersionName) && Keeps(a, r, SchemaVersionName)
    decreases |kwargs|
  {
    if |kwargs| > 0 {
      var (k, v) := kwargs[0];
      var rest := kwargs[1..];
      assert forall i :: 0 <= i < |rest| ==> rest[i] == kwargs[i + 1];
      if k in a.fields {
        match Assign(a, Some(k), v)
        case Failure(_) =>
        case Success(b) =>
          if k == ClientSdkVersionName || k == SchemaVersionName {
            var i :| 0 <= i < |order| && order[i] == k;
            ReadonlyKept(a, order, i, v);
          }
          assert Keeps(a, b, ReadonlyFieldsName) && Keeps(a, b, ClientSdkVersionName) && Keeps(a, b, SchemaVersionName);
          SetAttributesKeepsReadonly(b, rest, order);
      } else {
        match Lookup(a, ParametersName)
        case Some(FParams(d)) =>
          var b := Attrs(a.fields[ParametersName := FParams(d[k := Str(v)])]);
          SetAttributesKeepsReadonly(b, rest, order);
        case _ =>
      }
    }
  }
}
