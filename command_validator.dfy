/** The envelope check each node applies to a decoded command: a JSON Schema
    using only the keywords `type` (section 6.1.1 of the JSON Schema 2020-12
    Validation vocabulary), `enum` (section 6.1.2) and `properties` (section
    10.3.2.1 of JSON Schema 2020-12 Core), with no `required` and no
    `additionalProperties`. */
module CommandValidator {
  import opened Outcomes
  import opened Json

  const MasterCmdNames: seq<string> := ["connect", "disconnect", "finished", "task_done"]
  const WorkerCmdNames: seq<string> := ["map", "reduce", "terminate", "ping"]

  /** The primitive types the `type` keyword names. */
  datatype JsonType = NullType | BooleanType | ObjectType | ArrayType | NumberType | StringType | IntegerType

  /** A schema built from `type`, `enum` and `properties` only. */
  datatype Schema = Schema(
    typ: Option<JsonType>,
    enumValues: Option<seq<JsonValue>>,
    properties: seq<(string, Schema)>)

  /** An "integer" is a number with a zero fractional part; a bool is none. */
  predicate IsInteger(v: JsonValue) {
    v.JInt? || (v.JFloat? && v.r.Floor as real == v.r)
  }

  predicate HasType(v: JsonValue, t: JsonType) {
    match t
    case NullType => v.JNull?
    case BooleanType => v.JBool?
    case ObjectType => v.JObject?
    case ArrayType => v.JArray?
    case NumberType => v.JInt? || v.JFloat?
    case StringType => v.JString?
    case IntegerType => IsInteger(v)
  }

  /** The instance satisfies every keyword of the schema; `properties` applies
      to each member the instance has and says nothing about missing ones or
      about instances that are not objects. */
  predicate Conforms(v: JsonValue, s: Schema)
    decreases s, 0
  {
    && (s.typ.None? || HasType(v, s.typ.value))
    && (s.enumValues.None? || v in s.enumValues.value)
    && (v.JObject? ==>
          forall i :: 0 <= i < |s.properties| ==> MemberConforms(v, s.properties[i].0, s.properties[i].1))
  }

  /** The instance's member under `k`, if it has one, satisfies `sub`. */
  predicate MemberConforms(v: JsonValue, k: string, sub: Schema)
    requires v.JObject?
    decreases sub, 1
  {
    var m := Get(v.fields, k);
    m.Some? ==> Conforms(m.value, sub)
  }

  function TypeOnly(t: JsonType): Schema { Schema(Some(t), None, []) }

  /** `CMD_SCHEMA`: the name's enum is empty until `GetFullSchema` fills it. */
  const CmdSchema: Schema := Schema(Some(ObjectType), None, [
    ("host", TypeOnly(StringType)),
    ("port", TypeOnly(IntegerType)),
    ("name", Schema(Some(StringType), Some([]), [])),
    ("data", TypeOnly(ObjectType))])

  function Strings(names: seq<string>): (r: seq<JsonValue>)
    ensures forall v :: v in r <==> v.JString? && v.s in names
  {
    if |names| == 0 then [] else Strings(names[..|names| - 1]) + [JString(names[|names| - 1])]
  }

  /** `get_full_schema`: a copy of `CMD_SCHEMA` whose name enum is the given
      list; every other part of the copy equals `CMD_SCHEMA`, and since the
      schema is a value `CMD_SCHEMA` itself cannot change. */
  function GetFullSchema(possibleCommands: seq<string>): (r: Schema)
    ensures r.typ == CmdSchema.typ && r.enumValues == CmdSchema.enumValues
    ensures |r.properties| == |CmdSchema.properties| == 4
    ensures forall i :: 0 <= i < 4 && i != 2 ==> r.properties[i] == CmdSchema.properties[i]
    ensures r.properties[2] == ("name", Schema(Some(StringType), Some(Strings(possibleCommands)), []))
  {
    var name := CmdSchema.properties[2].1;
    CmdSchema.(properties := CmdSchema.properties[2 := ("name", name.(enumValues := Some(Strings(possibleCommands))))])
  }

  /** `validate`: the schema check as a bool; a failing check is `False`, not an exception. */
  predicate Validate(cmd: JsonValue, possibleCommands: seq<string>) {
    Conforms(cmd, GetFullSchema(possibleCommands))
  }

  predicate ValidateMaster(cmd: JsonValue) { Validate(cmd, MasterCmdNames) }

  predicate ValidateWorker(cmd: JsonValue) { Validate(cmd, WorkerCmdNames) }

  /** The envelope rule written out member by member, independent of the schema
      machinery: an object whose `host`, if present, is a string, `port` an
      integer, `data` an object and `name` one of the allowed names. */
  predicate IsEnvelope(cmd: JsonValue, names: seq<string>) {
    && cmd.JObject?
    && (Get(cmd.fields, "host").Some? ==> Get(cmd.fields, "host").value.JString?)
    && (Get(cmd.fields, "port").Some? ==> IsInteger(Get(cmd.fields, "port").value))
    && (Get(cmd.fields, "name").Some? ==>
          Get(cmd.fields, "name").value.JString? && Get(cmd.fields, "name").value.s in names)
    && (Get(cmd.fields, "data").Some? ==> Get(cmd.fields, "data").value.JObject?)
  }

  /** The schema accepts exactly the envelopes described by `IsEnvelope`. */
  lemma ValidateIsEnvelope(cmd: JsonValue, names: seq<string>)
    ensures Validate(cmd, names) <==> IsEnvelope(cmd, names)
  {
    if cmd.JObject? {
      SchemaMembers(cmd, names);
      TypeOnlyConforms(cmd, "host", StringType);
      TypeOnlyConforms(cmd, "port", IntegerType);
      TypeOnlyConforms(cmd, "data", ObjectType);
      NameConforms(cmd, names);
    }
  }

  /** The schema `name` gets from `get_full_schema`. */
  function NameSchema(names: seq<string>): Schema {
    Schema(Some(StringType), Some(Strings(names)), [])
  }

  /** An object passes the full schema when each of the four members passes its own schema. */
  lemma SchemaMembers(cmd: JsonValue, names: seq<string>)
    requires cmd.JObject?
    ensures Validate(cmd, names) <==>
      && MemberConforms(cmd, "host", TypeOnly(StringType))
      && MemberConforms(cmd, "port", TypeOnly(IntegerType))
      && MemberConforms(cmd, "name", NameSchema(names))
      && MemberConforms(cmd, "data", TypeOnly(ObjectType))
  {
    var ps := GetFullSchema(names).properties;
    assert ps[0] == ("host", TypeOnly(StringType));
    assert ps[1] == ("port", TypeOnly(IntegerType));
    assert ps[2] == ("name", NameSchema(names));
    assert ps[3] == ("data", TypeOnly(ObjectType));
    assert (forall i :: 0 <= i < 4 ==> MemberConforms(cmd, ps[i].0, ps[i].1)) <==>
      MemberConforms(cmd, ps[0].0, ps[0].1) && MemberConforms(cmd, ps[1].0, ps[1].1) &&
      MemberConforms(cmd, ps[2].0, ps[2].1) && MemberConforms(cmd, ps[3].0, ps[3].1);
  }

  /** A present `name` passes its schema when it is a string among the names. */
  lemma NameConforms(cmd: JsonValue, names: seq<string>)
    requires cmd.JObject?
    ensures MemberConforms(cmd, "name", NameSchema(names)) <==>
      (Get(cmd.fields, "name").Some? ==>
         Get(cmd.fields, "name").value.JString? && Get(cmd.fields, "name").value.s in names)
  {
  }

  lemma TypeOnlyConforms(cmd: JsonValue, k: string, t: JsonType)
    requires cmd.JObject?
    ensures MemberConforms(cmd, k, TypeOnly(t)) <==>
      (Get(cmd.fields, k).Some? ==> HasType(Get(cmd.fields, k).value, t))
  {
  }

  /** Whatever is not a JSON object is rejected. */
  lemma NonObjectRejected(cmd: JsonValue, names: seq<string>)
    requires !cmd.JObject?
    ensures !Validate(cmd, names)
  {
  }

  /** No key is required: `{}` passes, whatever the names. */
  lemma EmptyObjectAccepted(names: seq<string>)
    ensures Validate(JObject([]), names)
  {
    ValidateIsEnvelope(JObject([]), names);
  }

  /** The four checked keys are the only ones that matter: an extra member
      under any other key never changes the verdict. */
  lemma ExtraKeyIrrelevant(fields: seq<(string, JsonValue)>, k: string, v: JsonValue, names: seq<string>)
    requires k !in {"host", "port", "name", "data"}
    ensures Validate(JObject(fields + [(k, v)]), names) == Validate(JObject(fields), names)
  {
    var fs := fields + [(k, v)];
    assert fs[..|fs| - 1] == fields;
    ValidateIsEnvelope(JObject(fs), names);
    ValidateIsEnvelope(JObject(fields), names);
  }

  /** A name the master accepts is one of its four command names, and the
      workers' four names are the only ones a worker accepts. */
  lemma AcceptedNames(cmd: JsonValue)
    requires cmd.JObject? && Get(cmd.fields, "name").Some?
    ensures ValidateMaster(cmd) ==>
      Get(cmd.fields, "name").value.JString? && Get(cmd.fields, "name").value.s in MasterCmdNames
    ensures ValidateWorker(cmd) ==>
      Get(cmd.fields, "name").value.JString? && Get(cmd.fields, "name").value.s in WorkerCmdNames
  {
    MasterName(cmd);
    WorkerName(cmd);
  }

  /** The master's half of `AcceptedNames`. */
  lemma MasterName(cmd: JsonValue)
    requires cmd.JObject? && Get(cmd.fields, "name").Some?
    ensures ValidateMaster(cmd) ==>
      Get(cmd.fields, "name").value.JString? && Get(cmd.fields, "name").value.s in MasterCmdNames
  {
    ValidateIsEnvelope(cmd, MasterCmdNames);
  }

  /** The worker's half of `AcceptedNames`. */
  lemma WorkerName(cmd: JsonValue)
    requires cmd.JObject? && Get(cmd.fields, "name").Some?
    ensures ValidateWorker(cmd) ==>
      Get(cmd.fields, "name").value.JString? && Get(cmd.fields, "name").value.s in WorkerCmdNames
  {
    ValidateIsEnvelope(cmd, WorkerCmdNames);
  }

  /** The two vocabularies are disjoint: a command one role accepts by its name
      is refused by the other. */
  lemma RolesDisjoint(cmd: JsonValue)
    requires cmd.JObject? && Get(cmd.fields, "name").Some?
    ensures !(ValidateMaster(cmd) && ValidateWorker(cmd))
  {
    AcceptedNames(cmd);
    NamesDisjoint();
  }

  /** No name is in both vocabularies. */
  lemma NamesDisjoint()
    ensures forall n :: n in MasterCmdNames ==> n !in WorkerCmdNames
  {
  }
}
