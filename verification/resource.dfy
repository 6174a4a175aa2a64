/** `_AnacondaCommon.make_otel_resource` and `_hash_session_id`
    (signals.py:67-102): the resource-attribute map every signal is built
    with, from the attribute record and the configuration's session
    entropy. SHA-256, `json.dumps` and `str()` of non-text values are
    foreign and come in as functions. */
module Resource {
  import opened Wrappers
  import opened Text
  import Attributes
  import Config

  type Field = Attributes.Field

  /** The foreign functions the resource is built with. */
  datatype Py = Py(
    sha256Hex: string -> string,      // hashlib.sha256(s.encode("utf-8")).hexdigest()
    jsonDumps: Field -> string,       // json.dumps(parameters)
    strOf: Field -> string,           // str() of a value that is not text
    strOther: string)                 // str() of an entropy that is none of the modelled kinds

  const ServiceNameKey := "service.name"       // opentelemetry's SERVICE_NAME
  const ServiceVersionKey := "service.version" // opentelemetry's SERVICE_VERSION
  const SessionIdKey := "session.id"
  const UserIdKey := "user.id"

  /** The fields whose metadata carries an `otel_name`, in declaration
      order, with that name. */
  const Renames: seq<(string, string)> := [
    (Attributes.OsTypeName, "os.type"),
    (Attributes.OsVersionName, "os.version"),
    (Attributes.PythonVersionName, "python.version"),
    (Attributes.HostnameName, "hostname"),
    (Attributes.PlatformName, "platform"),
    (Attributes.EnvironmentName, "environment"),
    (Attributes.ClientSdkVersionName, "client.sdk.version"),
    (Attributes.SchemaVersionName, "schema.version"),
    (Attributes.ParametersName, "parameters")]

  datatype ResourceError =
    | KeyError(key: string)   // a `dict[...]` or `dict.pop(...)` of a missing key
    | EntropyRemoved          // `_hash_session_id` given `None`

  // ---------------------------------------------------------------------
  // Renaming
  // ---------------------------------------------------------------------

  /** `m[to] = m.pop(from)` for each pair in turn. */
  function Rename(m: map<string, Field>, rs: seq<(string, string)>): (r: Result<map<string, Field>, ResourceError>)
    ensures r.Failure? ==> r.error.KeyError?
    decreases |rs|
  {
    if |rs| == 0 then Success(m)
    else if rs[0].0 !in m then Failure(KeyError(rs[0].0))
    else Rename((m - {rs[0].0})[rs[0].1 := m[rs[0].0]], rs[1..])
  }

  predicate IsFrom(rs: seq<(string, string)>, k: string) { exists i :: 0 <= i < |rs| && rs[i].0 == k }

  predicate IsTo(rs: seq<(string, string)>, k: string) { exists i :: 0 <= i < |rs| && rs[i].1 == k }

  /** No pair's new name is another pair's old name, and old names are
      distinct: the renames do not chain. */
  predicate Unchained(rs: seq<(string, string)>) {
    && (forall i, j :: 0 <= i < j < |rs| ==> rs[i].0 != rs[j].0)
    && (forall i, j :: 0 <= i < |rs| && 0 <= j < |rs| && rs[i].1 == rs[j].0 ==> i == j)
  }

  /** The renames apply cleanly to `m`: every old name is present, the new
      names are distinct, and a new name already present is its own old
      name. */
  predicate RenamesOk(m: map<string, Field>, rs: seq<(string, string)>) {
    && Unchained(rs)
    && (forall i :: 0 <= i < |rs| ==> rs[i].0 in m)
    && (forall i, j :: 0 <= i < j < |rs| ==> rs[i].1 != rs[j].1)
    && (forall i :: 0 <= i < |rs| && rs[i].1 in m ==> rs[i].1 == rs[i].0)
  }

  /** A name is an old (new) name of the renames when it is the first
      pair's or one of the rest's. */
  lemma NamesOfCons(rs: seq<(string, string)>, k: string)
    requires |rs| > 0
    ensures IsFrom(rs, k) <==> k == rs[0].0 || IsFrom(rs[1..], k)
    ensures IsTo(rs, k) <==> k == rs[0].1 || IsTo(rs[1..], k)
  {
    var rest := rs[1..];
    if IsFrom(rs, k) && k != rs[0].0 {
      var i :| 0 <= i < |rs| && rs[i].0 == k;
      assert rest[i - 1].0 == k;
    }
    if IsTo(rs, k) && k != rs[0].1 {
      var i :| 0 <= i < |rs| && rs[i].1 == k;
      assert rest[i - 1].1 == k;
    }
    if IsFrom(rest, k) {
      var i :| 0 <= i < |rest| && rest[i].0 == k;
      assert rs[i + 1].0 == k;
    }
    if IsTo(rest, k) {
      var i :| 0 <= i < |rest| && rest[i].1 == k;
      assert rs[i + 1].1 == k;
    }
  }

  /** One step of the renaming keeps the rest of the renames applicable, and
      the first new name is no later pair's old or new name. */
  lemma RenameStep(m: map<string, Field>, rs: seq<(string, string)>)
    requires |rs| > 0 && RenamesOk(m, rs)
    ensures RenamesOk((m - {rs[0].0})[rs[0].1 := m[rs[0].0]], rs[1..])
    ensures !IsFrom(rs[1..], rs[0].1) && !IsTo(rs[1..], rs[0].1)
    ensures forall i :: 1 <= i < |rs| ==> rs[i].0 != rs[0].0 && rs[i].0 != rs[0].1
  {
    var rest := rs[1..];
    assert forall i :: 0 <= i < |rest| ==> rest[i] == rs[i + 1];
    forall j | 0 <= j < |rest|
      ensures rest[j].0 != rs[0].1 && rest[j].1 != rs[0].1
    {
      assert rest[j] == rs[j + 1];
    }
  }

  /** Renaming one pair at a time keeps exactly the keys described key by
      key: the old names are gone, the new names are there, and every other
      key stays. */
  lemma {:induction false} RenameAllKeys(m: map<string, Field>, rs: seq<(string, string)>)
    requires RenamesOk(m, rs)
    ensures Rename(m, rs).Success?
    ensures forall k :: k in Rename(m, rs).value <==> (k in m && !IsFrom(rs, k)) || IsTo(rs, k)
    decreases |rs|
  {
    if |rs| > 0 {
      var m1 := (m - {rs[0].0})[rs[0].1 := m[rs[0].0]];
      RenameStep(m, rs);
      RenameAllKeys(m1, rs[1..]);
      forall k {
        NamesOfCons(rs, k);
      }
    }
  }

  /** ... and each new name holds its old name's value, every untouched key
      its own. */
  lemma {:induction false} RenameAllValues(m: map<string, Field>, rs: seq<(string, string)>)
    requires RenamesOk(m, rs)
    ensures Rename(m, rs).Success?
    ensures forall i :: 0 <= i < |rs| ==> rs[i].1 in Rename(m, rs).value && Rename(m, rs).value[rs[i].1] == m[rs[i].0]
    ensures forall k :: k in m && !IsFrom(rs, k) && !IsTo(rs, k) ==> k in Rename(m, rs).value && Rename(m, rs).value[k] == m[k]
    decreases |rs|
  {
    if |rs| > 0 {
      var rest := rs[1..];
      var m1 := (m - {rs[0].0})[rs[0].1 := m[rs[0].0]];
      RenameStep(m, rs);
      RenameAllValues(m1, rest);
      RenameAllKeys(m1, rest);
      var r := Rename(m1, rest).value;
      forall i | 0 <= i < |rs|
        ensures rs[i].1 in r && r[rs[i].1] == m[rs[i].0]
      {
        if i > 0 { assert rs[i] == rest[i - 1]; }
      }
      forall k | k in m && !IsFrom(rs, k) && !IsTo(rs, k)
        ensures k in r && r[k] == m[k]
      {
        NamesOfCons(rs, k);
      }
    }
  }

  /** Renaming fails exactly when an old name is missing, and reports the
      first one missing. */
  lemma {:induction false} RenameFailure(m: map<string, Field>, rs: seq<(string, string)>)
    requires Unchained(rs)
    ensures Rename(m, rs).Failure? <==> exists i :: 0 <= i < |rs| && rs[i].0 !in m
    ensures Rename(m, rs).Failure? ==>
              exists i :: (0 <= i < |rs| && rs[i].0 !in m && Rename(m, rs).error == KeyError(rs[i].0)
                           && forall j :: 0 <= j < i ==> rs[j].0 in m)
    decreases |rs|
  {
    if |rs| > 0 && rs[0].0 in m {
      var p := rs[0];
      var rest := rs[1..];
      var m1 := (m - {p.0})[p.1 := m[p.0]];
      assert forall i :: 0 <= i < |rest| ==> rest[i] == rs[i + 1];
      assert Unchained(rest);
      RenameFailure(m1, rest);
      assert forall i :: 0 <= i < |rest| ==> (rest[i].0 in m1 <==> rest[i].0 in m) by {
        forall i | 0 <= i < |rest|
          ensures rest[i].0 in m1 <==> rest[i].0 in m
        {
          assert rs[i + 1].0 != rs[0].0;
          assert rs[0].1 != rs[i + 1].0;
        }
      }
      if Rename(m, rs).Failure? {
        var i :| (0 <= i < |rest| && rest[i].0 !in m1 && Rename(m1, rest).error == KeyError(rest[i].0)
                  && forall j :: 0 <= j < i ==> rest[j].0 in m1);
        assert rs[i + 1].0 !in m;
        assert forall j :: 0 <= j < i + 1 ==> rs[j].0 in m by {
          forall j | 0 <= j < i + 1
            ensures rs[j].0 in m
          {
            if j > 0 { assert rs[j] == rest[j - 1]; }
          }
        }
      } else {
        forall i | 0 <= i < |rs|
          ensures rs[i].0 in m
        {
          if i > 0 { assert rs[i] == rest[i - 1]; }
        }
      }
    }
  }

  /** The declared renames do not chain, and their new names are distinct. */
  lemma RenamesUnchained()
    ensures Unchained(Renames)
    ensures forall i, j :: 0 <= i < j < |Renames| ==> Renames[i].1 != Renames[j].1
  {
    OldNamesDistinct();
    NewNamesDistinct();
    NewNamesNotOld();
  }

  lemma OldNamesDistinct()
    ensures forall i, j :: 0 <= i < j < |Renames| ==> Renames[i].0 != Renames[j].0
  {
  }

  lemma NewNamesDistinct()
    ensures forall i, j :: 0 <= i < j < |Renames| ==> Renames[i].1 != Renames[j].1
  {
  }

  lemma NewNamesNotOld()
    ensures forall i, j :: 0 <= i < |Renames| && 0 <= j < |Renames| && Renames[i].1 == Renames[j].0 ==> i == j
  {
  }

  // ---------------------------------------------------------------------
  // The resource map
  // ---------------------------------------------------------------------

  /** `str()` of a stored value. */
  function FieldText(f: Field, py: Py): string {
    if f.FText? then f.s else py.strOf(f)
  }

  /** Everything `make_otel_resource` does before the session id: take the
      two service fields out, encode `parameters`, put the service fields
      back under their OpenTelemetry names, then rename every field that
      carries an `otel_name`. Also returns the service name. */
  function Assemble(fields: map<string, Field>, py: Py): (r: Result<(map<string, Field>, Field), ResourceError>)
    ensures r.Failure? ==> r.error.KeyError?
    ensures r.Success? ==> Attributes.ServiceNameName in fields && r.value.1 == fields[Attributes.ServiceNameName]
  {
    if Attributes.ServiceNameName !in fields then Failure(KeyError(Attributes.ServiceNameName))
    else if Attributes.ServiceVersionName !in fields then Failure(KeyError(Attributes.ServiceVersionName))
    else
      if Attributes.ParametersName !in fields then Failure(KeyError(Attributes.ParametersName))
      else
        var m :- Rename(Unrenamed(fields, py), Renames);
        Success((m, fields[Attributes.ServiceNameName]))
  }

  /** The map before renaming: the service fields under their OpenTelemetry
      names, then the other fields with `parameters` encoded (a key the
      record shares with those names overwrites them, as `update` does). */
  function Unrenamed(fields: map<string, Field>, py: Py): map<string, Field>
    requires Attributes.ServiceNameName in fields && Attributes.ServiceVersionName in fields
    requires Attributes.ParametersName in fields
  {
    var rest := fields - {Attributes.ServiceNameName, Attributes.ServiceVersionName};
    var encoded := rest[Attributes.ParametersName := Attributes.FText(py.jsonDumps(rest[Attributes.ParametersName]))];
    map[ServiceNameKey := fields[Attributes.ServiceNameName],
        ServiceVersionKey := fields[Attributes.ServiceVersionName]] + encoded
  }

  /** `str(entropy)`. */
  function EntropyText(v: Config.CValue, py: Py): string {
    match v
    case VStr(s) => s
    case VInt(i) => IntToDecimal(i)
    case VBool(b) => if b then "True" else "False"
    case VNone => "None"
    case VOther => py.strOther
  }

  /** `_hash_session_id`: the hash of `entropy|user.id|service_name`, where
      `user.id` is looked up in the resource map built so far. */
  function SessionId(entropy: Config.CValue, resource: map<string, Field>, serviceName: Field, py: Py)
    : (r: Result<string, ResourceError>)
    ensures r.Failure? <==> entropy.VNone?
    ensures r.Failure? ==> r.error == EntropyRemoved
  {
    if entropy.VNone? then Failure(EntropyRemoved)
    else
      var userId := if UserIdKey in resource then FieldText(resource[UserIdKey], py) else "";
      Success(py.sha256Hex(EntropyText(entropy, py) + "|" + userId + "|" + FieldText(serviceName, py)))
  }

  /** `make_otel_resource` on the record's attribute map `fields`: the
      resource map, and the configuration after its entropy getter stored a
      clock reading (`nowNs`) if it had none. */
  function BuildResource(c: Config.Configuration, fields: map<string, Field>, nowNs: int, py: Py)
    : (r: Result<(map<string, Field>, Config.Configuration), ResourceError>)
    ensures r.Failure? ==> r.error.KeyError?
    ensures r.Success? ==> SessionIdKey in r.value.0 && r.value.0[SessionIdKey].FText?
    ensures r.Success? ==> Config.AgreesBut(c, r.value.1, Config.SessionEntropyName)
  {
    var (m, name) :- Assemble(fields, py);
    var (entropy, c') := Config.TracingSessionEntropy(c, nowNs);
    match SessionId(entropy, m, name, py)
    case Failure(e) => Failure(e)
    case Success(sid) => Success((m[SessionIdKey := Attributes.FText(sid)], c'))
  }

  /** `make_otel_resource` as written: the attribute map is the instance
      dictionary, which lacks every field whose argument was `None`. */
  function MakeResourceAsWritten(c: Config.Configuration, attrs: Attributes.Attrs, nowNs: int, py: Py)
    : (r: Result<(map<string, Field>, Config.Configuration), ResourceError>)
    ensures r.Failure? ==> r.error.KeyError? && r.error.key !in attrs.fields
  {
    BuildResourceFails(c, Attributes.GetAttributes(attrs), nowNs, py);
    BuildResource(c, Attributes.GetAttributes(attrs), nowNs, py)
  }

  /** The fields declared with the class default `""`. */
  const DefaultedNames: set<string> := {
    Attributes.OsTypeName, Attributes.OsVersionName, Attributes.PythonVersionName, Attributes.HostnameName,
    Attributes.PlatformName, Attributes.EnvironmentName, Attributes.UserIdName}

  /** The attribute map as the fields read through the object: a field
      missing from the instance dictionary reads as its class default. */
  function ClassDefaults(fields: map<string, Field>): (r: map<string, Field>)
    ensures forall k :: k in r <==> k in fields || k in DefaultedNames
    ensures forall k :: k in fields ==> r[k] == fields[k]
    ensures forall k :: k in DefaultedNames && k !in fields ==> r[k] == Attributes.FText("")
  {
    fields + map k | k in DefaultedNames && k !in fields :: Attributes.FText("")
  }

  /** `make_otel_resource` reading every field through the object, so that
      a field refused as `None` contributes its class default. */
  function MakeResource(c: Config.Configuration, attrs: Attributes.Attrs, nowNs: int, py: Py)
    : (r: Result<(map<string, Field>, Config.Configuration), ResourceError>)
    ensures r.Failure? ==> r.error.KeyError?
  {
    BuildResource(c, ClassDefaults(Attributes.GetAttributes(attrs)), nowNs, py)
  }

  // ---------------------------------------------------------------------
  // What the resource holds
  // ---------------------------------------------------------------------

  /** The names the resource map introduces; an attribute record whose own
      keys avoid them has nothing overwritten by them. */
  predicate Plain(fields: map<string, Field>) {
    && ServiceNameKey !in fields && ServiceVersionKey !in fields && SessionIdKey !in fields && UserIdKey !in fields
    && (forall i :: 0 <= i < |Renames| && Renames[i].1 != Renames[i].0 ==> Renames[i].1 !in fields)
  }

  /** The fields the resource needs: both service fields and every field
      with an `otel_name`. */
  predicate HasResourceFields(fields: map<string, Field>) {
    && Attributes.ServiceNameName in fields && Attributes.ServiceVersionName in fields
    && Attributes.ParametersName in fields
    && (forall i :: 0 <= i < |Renames| ==> Renames[i].0 in fields)
  }

  /** What a field's value becomes in the resource: `parameters` as its JSON
      text, every other field as it is. */
  function Exported(fields: map<string, Field>, key: string, py: Py): Field
    requires key in fields
  {
    if key == Attributes.ParametersName then Attributes.FText(py.jsonDumps(fields[key])) else fields[key]
  }

  /** The service fields and the names the resource adds are neither old
      nor new names of the renames. */
  lemma ReservedNames()
    ensures !IsFrom(Renames, Attributes.ServiceNameName) && !IsFrom(Renames, Attributes.ServiceVersionName)
    ensures !IsTo(Renames, Attributes.ServiceNameName) && !IsTo(Renames, Attributes.ServiceVersionName)
    ensures !IsTo(Renames, ServiceNameKey) && !IsTo(Renames, ServiceVersionKey)
    ensures !IsTo(Renames, UserIdKey) && !IsTo(Renames, SessionIdKey)
    ensures IsFrom(Renames, Attributes.ParametersName)
  {
    assert Renames[8].0 == Attributes.ParametersName;
  }

  /** An old name is in the map before renaming exactly when the record
      has it. */
  lemma UnrenamedFroms(fields: map<string, Field>, py: Py)
    requires Attributes.ServiceNameName in fields && Attributes.ServiceVersionName in fields
    requires Attributes.ParametersName in fields
    ensures forall i :: 0 <= i < |Renames| ==> (Renames[i].0 in Unrenamed(fields, py) <==> Renames[i].0 in fields)
  {
    ReservedNames();
    forall i | 0 <= i < |Renames|
      ensures Renames[i].0 in Unrenamed(fields, py) <==> Renames[i].0 in fields
    {
      assert IsFrom(Renames, Renames[i].0);
    }
  }

  /** Building the resource fails exactly when a service field or a field
      with an `otel_name` is missing, with `KeyError` for a missing one. */
  lemma AssembleFails(fields: map<string, Field>, py: Py)
    ensures Assemble(fields, py).Failure? <==> !HasResourceFields(fields)
    ensures Assemble(fields, py).Failure? ==>
              var k := Assemble(fields, py).error.key;
              k !in fields && (k == Attributes.ServiceNameName || k == Attributes.ServiceVersionName || IsFrom(Renames, k))
  {
    RenamesUnchained();
    ReservedNames();
    if Attributes.ServiceNameName in fields && Attributes.ServiceVersionName in fields
       && Attributes.ParametersName in fields
    {
      var m0 := Unrenamed(fields, py);
      UnrenamedFroms(fields, py);
      RenameFailure(m0, Renames);
      if Rename(m0, Renames).Failure? {
        var i :| (0 <= i < |Renames| && Renames[i].0 !in m0 && Rename(m0, Renames).error == KeyError(Renames[i].0)
                  && forall j :: 0 <= j < i ==> Renames[j].0 in m0);
        assert IsFrom(Renames, Renames[i].0);
      }
    } else if Attributes.ServiceNameName in fields && Attributes.ServiceVersionName in fields {
      assert Renames[8].0 == Attributes.ParametersName;
    }
  }

  /** For a record that needs no key overwritten, the map before renaming
      admits the renames, holds each old name's exported value, and keeps
      every other field. */
  lemma UnrenamedOk(fields: map<string, Field>, py: Py)
    requires Plain(fields) && HasResourceFields(fields)
    ensures RenamesOk(Unrenamed(fields, py), Renames)
    ensures forall i :: 0 <= i < |Renames| ==> Unrenamed(fields, py)[Renames[i].0] == Exported(fields, Renames[i].0, py)
    ensures forall k :: k in Unrenamed(fields, py) <==>
              k == ServiceNameKey || k == ServiceVersionKey
              || (k in fields && k != Attributes.ServiceNameName && k != Attributes.ServiceVersionName)
    ensures forall k :: (k in fields && k != Attributes.ServiceNameName && k != Attributes.ServiceVersionName
                         && !IsFrom(Renames, k)) ==> Unrenamed(fields, py)[k] == fields[k]
    ensures Unrenamed(fields, py)[ServiceNameKey] == fields[Attributes.ServiceNameName]
    ensures Unrenamed(fields, py)[ServiceVersionKey] == fields[Attributes.ServiceVersionName]
  {
    UnrenamedKeys(fields, py);
    UnrenamedOthers(fields, py);
    UnrenamedOldNames(fields, py);
  }

  /** The keys of the map before renaming: the two OpenTelemetry service
      names and the record's other fields. */
  lemma UnrenamedKeys(fields: map<string, Field>, py: Py)
    requires Plain(fields) && HasResourceFields(fields)
    ensures forall k :: k in Unrenamed(fields, py) <==>
              k == ServiceNameKey || k == ServiceVersionKey
              || (k in fields && k != Attributes.ServiceNameName && k != Attributes.ServiceVersionName)
    ensures Unrenamed(fields, py)[ServiceNameKey] == fields[Attributes.ServiceNameName]
    ensures Unrenamed(fields, py)[ServiceVersionKey] == fields[Attributes.ServiceVersionName]
  {
  }

  /** A field without an `otel_name` keeps its value before renaming. */
  lemma UnrenamedOthers(fields: map<string, Field>, py: Py)
    requires Plain(fields) && HasResourceFields(fields)
    ensures forall k :: (k in fields && k != Attributes.ServiceNameName && k != Attributes.ServiceVersionName
                         && !IsFrom(Renames, k)) ==> k in Unrenamed(fields, py) && Unrenamed(fields, py)[k] == fields[k]
  {
    ReservedNames();
  }

  /** Every old name is present with its exported value, and the renames
      apply cleanly. */
  lemma UnrenamedOldNames(fields: map<string, Field>, py: Py)
    requires Plain(fields) && HasResourceFields(fields)
    ensures RenamesOk(Unrenamed(fields, py), Renames)
    ensures forall i :: 0 <= i < |Renames| ==> Unrenamed(fields, py)[Renames[i].0] == Exported(fields, Renames[i].0, py)
  {
    RenamesUnchained();
    ReservedNames();
    var m0 := Unrenamed(fields, py);
    forall i | 0 <= i < |Renames|
      ensures Renames[i].0 in m0 && m0[Renames[i].0] == Exported(fields, Renames[i].0, py)
      ensures Renames[i].1 in m0 ==> Renames[i].1 == Renames[i].0
    {
      assert IsFrom(Renames, Renames[i].0);
      assert IsTo(Renames, Renames[i].1);
    }
  }

  /** For a record that needs no key overwritten, the resource holds the
      service fields under their OpenTelemetry names, the fields with an
      `otel_name` under that name, and every other field under its own. */
  lemma AssembleKeys(fields: map<string, Field>, py: Py)
    requires Plain(fields) && HasResourceFields(fields)
    ensures Assemble(fields, py).Success?
    ensures var m := Assemble(fields, py).value.0;
            forall k :: k in m <==> (|| k == ServiceNameKey || k == ServiceVersionKey || IsTo(Renames, k)
                                     || (k in fields && k != Attributes.ServiceNameName
                                         && k != Attributes.ServiceVersionName && !IsFrom(Renames, k)))
  {
    ReservedNames();
    UnrenamedOk(fields, py);
    RenameAllKeys(Unrenamed(fields, py), Renames);
  }

  /** ... with the service fields' values, each renamed field's exported
      value (`parameters` as JSON), and every other field's own value. */
  lemma AssembleValues(fields: map<string, Field>, py: Py)
    requires Plain(fields) && HasResourceFields(fields)
    ensures Assemble(fields, py).Success?
    ensures var m := Assemble(fields, py).value.0;
            && ServiceNameKey in m && m[ServiceNameKey] == fields[Attributes.ServiceNameName]
            && ServiceVersionKey in m && m[ServiceVersionKey] == fields[Attributes.ServiceVersionName]
    ensures var m := Assemble(fields, py).value.0;
            forall i :: 0 <= i < |Renames| ==> Renames[i].1 in m && m[Renames[i].1] == Exported(fields, Renames[i].0, py)
    ensures var m := Assemble(fields, py).value.0;
            forall k :: (k in fields && k != Attributes.ServiceNameName && k != Attributes.ServiceVersionName
                         && !IsFrom(Renames, k) && !IsTo(Renames, k)) ==> k in m && m[k] == fields[k]
  {
    ReservedNames();
    UnrenamedOk(fields, py);
    RenameAllValues(Unrenamed(fields, py), Renames);
  }

  /** `make_otel_resource` fails exactly when the record lacks a service
      field or a field with an `otel_name`, always with `KeyError` for a
      missing one: the entropy getter never hands `_hash_session_id` a
      `None`. */
  lemma BuildResourceFails(c: Config.Configuration, fields: map<string, Field>, nowNs: int, py: Py)
    ensures BuildResource(c, fields, nowNs, py).Failure? <==> !HasResourceFields(fields)
    ensures BuildResource(c, fields, nowNs, py).Failure? ==>
              var k := BuildResource(c, fields, nowNs, py).error.key;
              && k !in fields
              && (k == Attributes.ServiceNameName || k == Attributes.ServiceVersionName || IsFrom(Renames, k))
  {
    AssembleFails(fields, py);
  }

  /** `user.id` is never a key of the assembled map of a record that
      needs no key overwritten: `user_id` carries no `otel_name`. */
  lemma AssembleNoUser(fields: map<string, Field>, py: Py)
    requires Plain(fields) && HasResourceFields(fields)
    ensures Assemble(fields, py).Success? && UserIdKey !in Assemble(fields, py).value.0
  {
    AssembleKeys(fields, py);
    ReservedNames();
  }

  /** For a record that needs no key overwritten, `session.id` is the hash
      of `entropy||service_name` (the user id part is empty), and the
      configuration comes back with its entropy fixed. */
  lemma BuildResourceSession(c: Config.Configuration, fields: map<string, Field>, nowNs: int, py: Py)
    requires Plain(fields) && HasResourceFields(fields)
    ensures BuildResource(c, fields, nowNs, py).Success?
    ensures var (entropy, c') := Config.TracingSessionEntropy(c, nowNs);
            var sid := py.sha256Hex(EntropyText(entropy, py) + "||" + FieldText(fields[Attributes.ServiceNameName], py));
            && BuildResource(c, fields, nowNs, py).value.0 == Assemble(fields, py).value.0[SessionIdKey := Attributes.FText(sid)]
            && BuildResource(c, fields, nowNs, py).value.1 == c'
  {
    AssembleNoUser(fields, py);
    var (m, name) := Assemble(fields, py).value;
    var (entropy, c') := Config.TracingSessionEntropy(c, nowNs);
    var text := EntropyText(entropy, py);
    assert text + "|" + "" + "|" == text + "||";
    assert SessionId(entropy, m, name, py)
        == Success(py.sha256Hex(text + "||" + FieldText(name, py)));
  }

  /** Building the resource twice, the second time with the configuration
      the first returned, gives the same map (the same session id) whatever
      the clock reads. */
  lemma BuildResourceStable(c: Config.Configuration, fields: map<string, Field>, now1: int, now2: int, py: Py)
    requires BuildResource(c, fields, now1, py).Success?
    ensures var (m, c') := BuildResource(c, fields, now1, py).value;
            BuildResource(c', fields, now2, py) == Success((m, c'))
  {
    Config.EntropyStable(c, now1, now2);
  }

  /** As written, a record without a `platform` entry cannot be turned
      into a resource: renaming `platform` raises `KeyError`. */
  lemma AsWrittenNeedsPlatform(c: Config.Configuration, attrs: Attributes.Attrs, nowNs: int, py: Py)
    requires Attributes.PlatformName !in attrs.fields
    ensures MakeResourceAsWritten(c, attrs, nowNs, py).Failure?
  {
    var fields := Attributes.GetAttributes(attrs);
    assert Renames[4].0 !in fields;
    BuildResourceFails(c, fields, nowNs, py);
  }

  /** ... and a record constructed with `platform=None` has none. */
  lemma AsWrittenPlatformNone(args: Attributes.InitArgs, sdkVersion: string, schemaVersion: string,
                              order: seq<string>, host: Attributes.Host,
                              c: Config.Configuration, nowNs: int, py: Py)
    requires forall i :: 0 <= i < |order| ==> order[i] in Attributes.ReadonlyNames
    requires Attributes.Construct(args, sdkVersion, schemaVersion, order, host).Success?
    requires args.platform.PNone?
    ensures MakeResourceAsWritten(c, Attributes.Construct(args, sdkVersion, schemaVersion, order, host).value, nowNs, py).Failure?
  {
    Attributes.ConstructKeys(args, sdkVersion, schemaVersion, order, host);
    AsWrittenNeedsPlatform(c, Attributes.Construct(args, sdkVersion, schemaVersion, order, host).value, nowNs, py);
  }

  /** Reading the fields through the object, a record holding the service
      fields, `parameters` and the two version fields builds a resource. */
  lemma MakeResourceDefaults(c: Config.Configuration, attrs: Attributes.Attrs, nowNs: int, py: Py)
    requires Attributes.ServiceNameName in attrs.fields && Attributes.ServiceVersionName in attrs.fields
    requires Attributes.ParametersName in attrs.fields
    requires Attributes.ClientSdkVersionName in attrs.fields && Attributes.SchemaVersionName in attrs.fields
    ensures MakeResource(c, attrs, nowNs, py).Success?
  {
    var fields := ClassDefaults(Attributes.GetAttributes(attrs));
    assert HasResourceFields(fields);
    BuildResourceFails(c, fields, nowNs, py);
  }

  /** ... so every constructed record whose service fields were given
      builds one, whatever else was `None`. */
  lemma MakeResourceConstructed(args: Attributes.InitArgs, sdkVersion: string, schemaVersion: string,
                                order: seq<string>, host: Attributes.Host,
                                c: Config.Configuration, nowNs: int, py: Py)
    requires forall i :: 0 <= i < |order| ==> order[i] in Attributes.ReadonlyNames
    requires Attributes.Construct(args, sdkVersion, schemaVersion, order, host).Success?
    requires !args.serviceName.PNone? && !args.serviceVersion.PNone?
    ensures MakeResource(c, Attributes.Construct(args, sdkVersion, schemaVersion, order, host).value, nowNs, py).Success?
  {
    Attributes.ConstructKeys(args, sdkVersion, schemaVersion, order, host);
    MakeResourceDefaults(c, Attributes.Construct(args, sdkVersion, schemaVersion, order, host).value, nowNs, py);
  }
}
