/**
 * Revision rendering: the display name of a revision's field, whether the
 * field is a foreign key, the related model's name, the displayed old or new
 * value, and the one-line description. Everything the code learns by
 * reflection (class_exists, method_exists, `new $class`, relation methods,
 * find, mutators) comes from an `Env` given as a parameter.
 */
module Revision {
  import opened Wrappers
  import opened Php
  import opened Policy
  import opened Store
  import FieldFormatter

  /** What a class offers: its methods, its revisionable properties, the
      classes its relation methods point to, and the results of calling it. */
  datatype ClassInfo = ClassInfo(
    methods: set<string>,
    relationshipMap: Option<map<string, string>>,  // revisionableRelationshipMap, when it is an array
    formattedFields: seq<(string, string)>,         // revisionFormattedFields
    formattedFieldNames: map<string, string>,       // revisionFormattedFieldNames
    relations: map<string, string>,                 // relation method -> class of getRelated()
    revisionNullString: Option<string>,
    revisionUnknownString: Option<string>,
    find: Value -> Option<Value>,                   // find($id), as the found row's identifiableName()
    call: (string, Value) -> Value)                 // calling a one-argument method such as a mutator

  /** The program around a revision: its classes, the morph map, and the
      string and date helpers of the framework. */
  datatype Env = Env(
    classes: map<string, ClassInfo>,
    morphMap: map<string, string>,
    camel: string -> string,
    studly: string -> string,
    dates: FieldFormatter.DateFormatter)

  datatype Which = Old | New

  /** `method_exists`: method names compare ASCII case-insensitively. */
  predicate HasMethod(c: ClassInfo, name: string) {
    exists m | m in c.methods :: FieldFormatter.LowerAscii(m) == FieldFormatter.LowerAscii(name)
  }

  /** `getActualClassNameForMorph($type)`: the morph map entry, else the type itself. */
  function Morph(env: Env, revisionableType: string): (cls: string)
    ensures revisionableType in env.morphMap ==> cls == env.morphMap[revisionableType]
    ensures revisionableType !in env.morphMap ==> cls == revisionableType
  {
    if revisionableType in env.morphMap then env.morphMap[revisionableType] else revisionableType
  }

  /** `new $related_model` for the revision's (morph-resolved) type. */
  function Subject(env: Env, e: Entry): (r: Result<ClassInfo, Error>)
    ensures r.Success? <==> Morph(env, e.revisionableType) in env.classes
    ensures r.Success? ==> r.value == env.classes[Morph(env, e.revisionableType)]
    ensures r.Failure? ==> r.error == ClassNotFound(Morph(env, e.revisionableType))
  {
    var cls := Morph(env, e.revisionableType);
    if cls in env.classes then Success(env.classes[cls]) else Failure(ClassNotFound(cls))
  }

  predicate HasFormat(fields: seq<(string, string)>, key: string) {
    exists i | 0 <= i < |fields| :: fields[i].0 == key
  }

  /** `format($key, $value)`: the subject's formatted-fields table applies
      only when it has an entry for the key. */
  function Format(env: Env, e: Entry, key: string, value: Value): (r: Result<Value, Error>)
    ensures Subject(env, e).Failure? ==> r == Failure(Subject(env, e).error)
    ensures Subject(env, e).Success? && !HasFormat(Subject(env, e).value.formattedFields, key) ==> r == Success(value)
    ensures Subject(env, e).Success? && HasFormat(Subject(env, e).value.formattedFields, key) ==>
              r == FieldFormatter.FormatSpec(key, value, Subject(env, e).value.formattedFields, env.dates)
    ensures r.Failure? ==>
              Subject(env, e).Failure? ||
              (exists i | 0 <= i < |Subject(env, e).value.formattedFields| ::
                 FieldFormatter.Applies(Subject(env, e).value.formattedFields[i], key))
  {
    var c :- Subject(env, e);
    if HasFormat(c.formattedFields, key) then FieldFormatter.FormatSpec(key, value, c.formattedFields, env.dates)
    else Success(value)
  }

  /** `fieldName()`: a truthy configured name, else the key with every '_id'
      removed when '_id' occurs after position 0, else the key. */
  function FieldName(env: Env, e: Entry): (r: Result<string, Error>)
    ensures r.Success? <==> Subject(env, e).Success?
    ensures r.Success? ==> r.value == e.key || r.value == RemoveAll(e.key, "_id") ||
                           r.value in Subject(env, e).value.formattedFieldNames.Values
  {
    var c :- Subject(env, e);
    if e.key in c.formattedFieldNames && Truthy(Str(c.formattedFieldNames[e.key])) then
      Success(c.formattedFieldNames[e.key])
    else match StrPos(e.key, "_id")
      case Some(p) => if p > 0 then Success(RemoveAll(e.key, "_id")) else Success(e.key)
      case None => Success(e.key)
  }

  /** The last '_id' of the key is its suffix. */
  predicate IdSuffix(key: string) {
    var p := StrRPos(key, "_id");
    p.Some? && p.value == |key| - 3
  }

  /** The subject's `revisionableRelationshipMap` is an array holding the key. */
  predicate Mapped(c: ClassInfo, key: string) {
    c.relationshipMap.Some? && key in c.relationshipMap.value
  }

  /** `isRelated()`: a relationship-map entry decides first; otherwise the
      subject needs a method named like the key without '_id', and the key
      must end with '_id'. */
  function IsRelated(env: Env, e: Entry): (r: Result<bool, Error>)
    ensures r.Success? <==> Subject(env, e).Success?
    ensures r == Success(true) <==>
              Subject(env, e).Success? &&
              (Mapped(Subject(env, e).value, e.key) ||
               (HasMethod(Subject(env, e).value, RemoveAll(e.key, "_id")) && EndsWith(e.key, "_id")))
  {
    var c :- Subject(env, e);
    LastOccurrenceIsSuffix(e.key, "_id");
    if Mapped(c, e.key) then Success(true)
    else if !HasMethod(c, RemoveAll(e.key, "_id")) then Success(false)
    else Success(IdSuffix(e.key))
  }

  /** `getRelatedModel()`: the relationship-map entry, else the key without
      its last three characters (`substr($key, 0, strlen($key) - 3)`). */
  function RelatedModel(env: Env, e: Entry): (r: Result<string, Error>)
    ensures r.Success? <==> Subject(env, e).Success?
    ensures r.Success? && Mapped(Subject(env, e).value, e.key) ==>
              r.value == Subject(env, e).value.relationshipMap.value[e.key]
    ensures r.Success? && !Mapped(Subject(env, e).value, e.key) ==> r.value <= e.key
    ensures r.Success? && !Mapped(Subject(env, e).value, e.key) && EndsWith(e.key, "_id") ==> r.value + "_id" == e.key
  {
    var c :- Subject(env, e);
    if Mapped(c, e.key) then Success(c.relationshipMap.value[e.key])
    else
      var n := |e.key| - 3;
      Success(if n >= 0 then e.key[..n] else e.key[..if |e.key| + n > 0 then |e.key| + n else 0])
  }

  /** Without a map entry, a key is related exactly when the subject has the
      method and the key ends with '_id'. */
  lemma IsRelatedByConvention(env: Env, e: Entry, c: ClassInfo)
    requires Subject(env, e) == Success(c)
    requires !Mapped(c, e.key)
    ensures IsRelated(env, e) == Success(HasMethod(c, RemoveAll(e.key, "_id")) && EndsWith(e.key, "_id"))
  {
  }

  /** The map wins over the convention: a mapped key is related and resolves
      to its mapped model whatever its name. */
  lemma MapTakesPrecedence(env: Env, e: Entry, c: ClassInfo)
    requires Subject(env, e) == Success(c)
    requires Mapped(c, e.key)
    ensures IsRelated(env, e) == Success(true)
    ensures RelatedModel(env, e) == Success(c.relationshipMap.value[e.key])
  {
  }

  /** For a conventional foreign key such as 'author_id' (its only '_id' is the
      suffix, after position 0), the display name and the related model name
      are the same: the key without '_id'. */
  lemma FieldNameIsRelatedModel(env: Env, e: Entry, c: ClassInfo)
    requires Subject(env, e) == Success(c)
    requires e.key !in c.formattedFieldNames
    requires !Mapped(c, e.key)
    requires |e.key| > 3 && StrPos(e.key, "_id") == Some(|e.key| - 3)
    ensures FieldName(env, e) == RelatedModel(env, e) == Success(e.key[..|e.key| - 3])
  {
    StripSoleSuffix(e.key, "_id");
  }

  /** A truthy configured display name wins over the '_id' rule. */
  lemma FieldNameOverride(env: Env, e: Entry, c: ClassInfo)
    requires Subject(env, e) == Success(c)
    requires e.key in c.formattedFieldNames && Truthy(Str(c.formattedFieldNames[e.key]))
    ensures FieldName(env, e) == Success(c.formattedFieldNames[e.key])
  {
  }

  /** Without a truthy configured name: a key holding '_id' somewhere after
      position 0 but not at 0 loses every '_id'; a key without '_id', or
      starting with it, is shown as it is. */
  lemma FieldNameByPosition(env: Env, e: Entry, c: ClassInfo)
    requires Subject(env, e) == Success(c)
    requires !(e.key in c.formattedFieldNames && Truthy(Str(c.formattedFieldNames[e.key])))
    ensures !OccursAt(e.key, "_id", 0) && (exists j | 0 < j :: OccursAt(e.key, "_id", j)) ==>
              FieldName(env, e) == Success(RemoveAll(e.key, "_id"))
    ensures (forall j | 0 <= j :: !OccursAt(e.key, "_id", j)) ==> FieldName(env, e) == Success(e.key)
    ensures OccursAt(e.key, "_id", 0) ==> FieldName(env, e) == Success(e.key)
  {
    match StrPos(e.key, "_id")
    case None =>
    case Some(p) =>
      if p == 0 {
        assert OccursAt(e.key, "_id", 0);
      }
  }

  /** A key starting with '_id' is shown as it is: strpos gives 0, which is falsy. */
  lemma FieldNameIdAtStart(env: Env, e: Entry, c: ClassInfo)
    requires Subject(env, e) == Success(c)
    requires e.key !in c.formattedFieldNames
    requires |e.key| >= 3 && e.key[..3] == "_id"
    ensures FieldName(env, e) == Success(e.key)
  {
  }

  // ---------------------------------------------------------------------------
  // getValue

  function Raw(e: Entry, which: Which): Value {
    if which == Old then e.oldValue else e.newValue
  }

  /** The array key `isset($fields[$k])` uses for a mutator's result. */
  function FormatKey(v: Value): (r: Result<string, Error>)
    ensures r.Failure? <==> v.Arr? || v.Obj?
  {
    match v
    case Null => Success("")
    case Bool(b) => Success(if b then "1" else "0")
    case Int(i) => Success(Decimal(i))
    case Str(s) => Success(s)
    case _ => Failure(IllegalOffset)
  }

  /** The class of the relation named after the key: the method as named,
      else its camel-case form, else the explicit exception. */
  function RelatedClass(env: Env, e: Entry, main: ClassInfo): (r: Result<ClassInfo, Error>)
    ensures RelatedModel(env, e).Failure? ==> r.Failure?
    ensures r.Success? ==> HasMethod(main, RelatedModel(env, e).value) || HasMethod(main, env.camel(RelatedModel(env, e).value))
    ensures r.Success? ==> exists n | n in env.classes :: r.value == env.classes[n]
    ensures RelatedModel(env, e).Success? && HasMethod(main, RelatedModel(env, e).value) ==>
              (r.Success? <==> RelatedModel(env, e).value in main.relations
                               && main.relations[RelatedModel(env, e).value] in env.classes)
  {
    var rm :- RelatedModel(env, e);
    var name := if HasMethod(main, rm) then rm else env.camel(rm);
    if !HasMethod(main, name) then Failure(RelationMissing(name))
    else if name !in main.relations then Failure(NotARelation(name))
    else if main.relations[name] !in env.classes then Failure(ClassNotFound(main.relations[name]))
    else Success(env.classes[main.relations[name]])
  }

  /** The accessor Eloquent calls for a key: `'get' . Str::studly($key) . 'Attribute'`. */
  function Mutator(env: Env, key: string): string {
    "get" + env.studly(key) + "Attribute"
  }

  /** A plain value: through the subject's `get<Studly>Attribute` mutator when
      it has one, then through `format`. */
  function PlainValue(env: Env, e: Entry, main: ClassInfo, raw: Value): (r: Result<Value, Error>)
    ensures Subject(env, e).Success? && !HasFormat(Subject(env, e).value.formattedFields, e.key) ==>
              r == Success(if HasMethod(main, Mutator(env, e.key)) then main.call(Mutator(env, e.key), raw) else raw)
    ensures Subject(env, e).Failure? ==> r.Failure?
  {
    if HasMethod(main, Mutator(env, e.key)) then Format(env, e, e.key, main.call(Mutator(env, e.key), raw))
    else Format(env, e, e.key, raw)
  }

  /** `getValue($which)`. */
  function GetValue(env: Env, e: Entry, which: Which): (r: Result<Value, Error>)
    ensures e.revisionableType !in env.classes ==> r == Format(env, e, e.key, Raw(e, which))
    ensures e.revisionableType in env.classes && IsRelated(env, e).Failure? ==> r.Failure?
    ensures e.revisionableType in env.classes && IsRelated(env, e) == Success(false) ==>
              r == PlainValue(env, e, env.classes[e.revisionableType], Raw(e, which))
  {
    var raw := Raw(e, which);
    if e.revisionableType !in env.classes then Format(env, e, e.key, raw)
    else
      var main := env.classes[e.revisionableType];
      var related :- IsRelated(env, e);
      if !related then PlainValue(env, e, main, raw)
      else
        var item :- RelatedClass(env, e, main);
        if raw == Null || LooseEquals(raw, Str("")) then
          Success(Str(if HasMethod(item, "getRevisionNullString") then NullString(item.revisionNullString) else "Nothing"))
        else match item.find(raw)
          case None =>
            if HasMethod(item, "getRevisionUnknownString") then
              Format(env, e, e.key, Str(UnknownString(item.revisionUnknownString)))
            else Success(Str("Unknown"))
          case Some(name) =>
            if !HasMethod(item, "identifiableName") then PlainValue(env, e, main, raw)
            else
              var mutator := Mutator(env, e.key);
              if HasMethod(item, mutator) then
                var k :- FormatKey(item.call(mutator, Str(e.key)));
                Format(env, e, k, name)
              else Format(env, e, e.key, name)
  }

  /** A type that is no class (a morph alias, say) skips the relation and
      mutator lookups: the stored value is only formatted. */
  lemma UnknownTypeOnlyFormats(env: Env, e: Entry, which: Which)
    requires e.revisionableType !in env.classes
    ensures GetValue(env, e, which) == Format(env, e, e.key, Raw(e, which))
  {
  }

  /** A field that is no relation and has no mutator shows its stored value,
      formatted. */
  lemma PlainFieldIsFormatted(env: Env, e: Entry, which: Which)
    requires e.revisionableType in env.classes
    requires IsRelated(env, e) == Success(false)
    requires !HasMethod(env.classes[e.revisionableType], Mutator(env, e.key))
    ensures GetValue(env, e, which) == Format(env, e, e.key, Raw(e, which))
  {
  }

  /** A field that is no relation but has a subject mutator shows the
      mutator's result for the stored value, formatted under the key. */
  lemma PlainFieldIsMutated(env: Env, e: Entry, which: Which)
    requires e.revisionableType in env.classes
    requires IsRelated(env, e) == Success(false)
    requires HasMethod(env.classes[e.revisionableType], Mutator(env, e.key))
    ensures GetValue(env, e, which)
            == Format(env, e, e.key, env.classes[e.revisionableType].call(Mutator(env, e.key), Raw(e, which)))
  {
  }

  /** When the subject has a method named exactly like the relation, that
      method's relation class is used, whatever the camel-case form names. */
  lemma LiteralRelationResolves(env: Env, e: Entry, main: ClassInfo, rm: string)
    requires RelatedModel(env, e) == Success(rm)
    requires HasMethod(main, rm) && rm in main.relations && main.relations[rm] in env.classes
    ensures RelatedClass(env, e, main) == Success(env.classes[main.relations[rm]])
  {
  }

  /** When the relation is not named like the key but its camel-case form is,
      the camel-case relation's class is used. */
  lemma CamelFallbackResolves(env: Env, e: Entry, main: ClassInfo, rm: string)
    requires RelatedModel(env, e) == Success(rm)
    requires !HasMethod(main, rm) && HasMethod(main, env.camel(rm))
    requires env.camel(rm) in main.relations && main.relations[env.camel(rm)] in env.classes
    ensures RelatedClass(env, e, main) == Success(env.classes[main.relations[env.camel(rm)]])
  {
  }

  /** A relation that neither the name nor its camel-case form names is an error. */
  lemma MissingRelationThrows(env: Env, e: Entry, which: Which, rm: string)
    requires e.revisionableType in env.classes
    requires IsRelated(env, e) == Success(true) && RelatedModel(env, e) == Success(rm)
    requires !HasMethod(env.classes[e.revisionableType], rm)
    requires !HasMethod(env.classes[e.revisionableType], env.camel(rm))
    ensures GetValue(env, e, which) == Failure(RelationMissing(env.camel(rm)))
  {
  }

  /** An empty reference shows the related class's null string, unformatted,
      or 'Nothing'. */
  lemma EmptyReferenceShowsNullString(env: Env, e: Entry, which: Which, item: ClassInfo)
    requires e.revisionableType in env.classes
    requires IsRelated(env, e) == Success(true)
    requires RelatedClass(env, e, env.classes[e.revisionableType]) == Success(item)
    requires Raw(e, which) == Null || Raw(e, which) == Str("")
    ensures GetValue(env, e, which)
            == Success(Str(if HasMethod(item, "getRevisionNullString") then NullString(item.revisionNullString) else "Nothing"))
  {
  }

  /** A reference to a row that is gone shows the unknown string, formatted,
      or 'Unknown'. */
  lemma DanglingReferenceShowsUnknown(env: Env, e: Entry, which: Which, item: ClassInfo)
    requires e.revisionableType in env.classes
    requires IsRelated(env, e) == Success(true)
    requires RelatedClass(env, e, env.classes[e.revisionableType]) == Success(item)
    requires Raw(e, which) != Null && !LooseEquals(Raw(e, which), Str(""))
    requires item.find(Raw(e, which)).None?
    ensures HasMethod(item, "getRevisionUnknownString") ==>
              GetValue(env, e, which) == Format(env, e, e.key, Str(UnknownString(item.revisionUnknownString)))
    ensures !HasMethod(item, "getRevisionUnknownString") ==> GetValue(env, e, which) == Success(Str("Unknown"))
  {
  }

  /** A found row shows its identifiable name, formatted under the field's key
      when the row has no mutator for it. */
  lemma FoundReferenceShowsName(env: Env, e: Entry, which: Which, item: ClassInfo, name: Value)
    requires e.revisionableType in env.classes
    requires IsRelated(env, e) == Success(true)
    requires RelatedClass(env, e, env.classes[e.revisionableType]) == Success(item)
    requires Raw(e, which) != Null && !LooseEquals(Raw(e, which), Str(""))
    requires item.find(Raw(e, which)) == Some(name)
    requires HasMethod(item, "identifiableName")
    requires !HasMethod(item, Mutator(env, e.key))
    ensures GetValue(env, e, which) == Format(env, e, e.key, name)
  {
  }

  /** A found row with a mutator for the key is formatted under what the
      mutator returns for the key; an array or object there is an illegal
      offset. */
  lemma FoundReferenceIsMutated(env: Env, e: Entry, which: Which, item: ClassInfo, name: Value)
    requires e.revisionableType in env.classes
    requires IsRelated(env, e) == Success(true)
    requires RelatedClass(env, e, env.classes[e.revisionableType]) == Success(item)
    requires Raw(e, which) != Null && !LooseEquals(Raw(e, which), Str(""))
    requires item.find(Raw(e, which)) == Some(name)
    requires HasMethod(item, "identifiableName") && HasMethod(item, Mutator(env, e.key))
    ensures var k := item.call(Mutator(env, e.key), Str(e.key));
            (k.Arr? || k.Obj? ==> GetValue(env, e, which) == Failure(IllegalOffset)) &&
            (FormatKey(k).Success? ==> GetValue(env, e, which) == Format(env, e, FormatKey(k).value, name))
  {
  }

  /** A found row without `identifiableName` is shown as a plain value. */
  lemma FoundWithoutNameIsPlain(env: Env, e: Entry, which: Which, item: ClassInfo, name: Value)
    requires e.revisionableType in env.classes
    requires IsRelated(env, e) == Success(true)
    requires RelatedClass(env, e, env.classes[e.revisionableType]) == Success(item)
    requires Raw(e, which) != Null && !LooseEquals(Raw(e, which), Str(""))
    requires item.find(Raw(e, which)) == Some(name)
    requires !HasMethod(item, "identifiableName")
    ensures GetValue(env, e, which) == PlainValue(env, e, env.classes[e.revisionableType], Raw(e, which))
  {
  }

  // ---------------------------------------------------------------------------

  function Text(v: Value): Result<string, Error> {
    match ToText(v)
    case None => Failure(NotStringable)
    case Some(t) => Success(t)
  }

  /** `getRevisionableDescription()`. */
  function Description(env: Env, e: Entry): (r: Result<string, Error>)
    ensures r.Success? && Truthy(e.oldValue) ==> "Changed " + e.key + " from " <= r.value
    ensures r.Success? && !Truthy(e.oldValue) ==> "Initialised " + e.key + " with " <= r.value
    ensures !Truthy(e.oldValue) ==>
              (r.Success? <==> GetValue(env, e, New).Success? && Text(GetValue(env, e, New).value).Success?)
  {
    if Truthy(e.oldValue) then
      var o :- GetValue(env, e, Old);
      var ot :- Text(o);
      var n :- GetValue(env, e, New);
      var nt :- Text(n);
      Success("Changed " + e.key + " from " + ot + " to " + nt)
    else
      var n :- GetValue(env, e, New);
      var nt :- Text(n);
      Success("Initialised " + e.key + " with " + nt)
  }

  /** A truthy old value is described as a change, anything else as an
      initialisation; both name the key and show the new value last. */
  lemma DescriptionShape(env: Env, e: Entry, o: string, n: string)
    requires Truthy(e.oldValue) ==> GetValue(env, e, Old).Success? && Text(GetValue(env, e, Old).value) == Success(o)
    requires GetValue(env, e, New).Success? && Text(GetValue(env, e, New).value) == Success(n)
    ensures Truthy(e.oldValue) ==> Description(env, e) == Success("Changed " + e.key + " from " + o + " to " + n)
    ensures !Truthy(e.oldValue) ==> Description(env, e) == Success("Initialised " + e.key + " with " + n)
  {
  }
}
