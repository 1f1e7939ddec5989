/**
 The partial match that tells drift: an observed value matches a desired one when it agrees wherever the
 desired one says something, and a model descriptor limits what it can say.
 */
module Observation {
  import opened Wrappers

  datatype Json =
    | Undefined
    | Null
    | Bool(b: bool)
    | Num(n: real)
    | Str(s: string)
    | Arr(items: seq<Json>)
    | Obj(fields: map<string, Json>)

  /** What an SDK model tells of a value: nothing, the type of an array's items, or the fields of a record. */
  datatype Model = Plain | ArrayOf(itemType: Model) | Record(types: map<string, Model>)

  /** Property access, `undefined` on anything but an object. */
  function Field(v: Json, key: string): Json {
    if v.Obj? && key in v.fields then v.fields[key] else Undefined
  }

  function ItemModel(m: Model): Model {
    if m.ArrayOf? then m.itemType else Plain
  }

  /** Whether a descriptor lets a field be compared, and under which descriptor. */
  predicate Described(m: Model, key: string) {
    m.Record? ==> key in m.types
  }

  function FieldModel(m: Model, key: string): Model
    requires Described(m, key)
  {
    if m.Record? then m.types[key] else Plain
  }

  predicate Matches(observed: Json, desired: Json, model: Model)
    decreases desired, 1
  {
    match desired
    case Undefined => true
    case Arr(items) =>
      && observed.Arr? && |observed.items| == |items|
      && forall i | 0 <= i < |items| :: Matches(observed.items[i], items[i], ItemModel(model))
    case Obj(fields) =>
      forall key | key in fields :: FieldMatches(observed, desired, model, key)
    case _ => observed == desired
  }

  /** One entry of a desired object: skipped if it says nothing or is not described. */
  predicate FieldMatches(observed: Json, desired: Json, model: Model, key: string)
    requires desired.Obj? && key in desired.fields
    decreases desired, 0
  {
    || desired.fields[key].Undefined? || !Described(model, key)
    || Matches(Field(observed, key), desired.fields[key], FieldModel(model, key))
  }

  /** What matches nothing at all, such as an empty object, matches anything. */
  lemma {:induction false} MatchedByNothing(v: Json, desired: Json, model: Model)
    requires Matches(Undefined, desired, model)
    ensures Matches(v, desired, model)
    decreases desired
  {
    if desired.Obj? {
      forall key | key in desired.fields
        ensures FieldMatches(v, desired, model, key)
      {
        assert FieldMatches(Undefined, desired, model, key);
        if !desired.fields[key].Undefined? && Described(model, key) {
          MatchedByNothing(Field(v, key), desired.fields[key], FieldModel(model, key));
        }
      }
    }
  }

  /** A value never drifts from itself. */
  lemma {:induction false} Reflexive(v: Json, model: Model)
    ensures Matches(v, v, model)
    decreases v
  {
    match v
    case Arr(items) =>
      forall i | 0 <= i < |items|
        ensures Matches(items[i], items[i], ItemModel(model))
      {
        Reflexive(items[i], ItemModel(model));
      }
    case Obj(fields) =>
      forall key | key in fields
        ensures FieldMatches(v, v, model, key)
      {
        if Described(model, key) {
          Reflexive(fields[key], FieldModel(model, key));
        }
      }
    case _ =>
  }

  /** Matching is transitive, although missing and empty parts match loosely. */
  lemma {:induction false} Transitive(a: Json, b: Json, c: Json, model: Model)
    requires Matches(a, b, model) && Matches(b, c, model)
    ensures Matches(a, c, model)
    decreases c
  {
    match c
    case Arr(items) =>
      forall i | 0 <= i < |items|
        ensures Matches(a.items[i], items[i], ItemModel(model))
      {
        Transitive(a.items[i], b.items[i], items[i], ItemModel(model));
      }
    case Obj(fields) =>
      forall key | key in fields
        ensures FieldMatches(a, c, model, key)
      {
        assert FieldMatches(b, c, model, key);
        if !fields[key].Undefined? && Described(model, key) {
          if Field(b, key).Undefined? {
            MatchedByNothing(Field(a, key), fields[key], FieldModel(model, key));
          } else {
            assert FieldMatches(a, b, model, key);
            Transitive(Field(a, key), Field(b, key), fields[key], FieldModel(model, key));
          }
        }
      }
    case _ =>
  }

  /** The desired value with every field its descriptor does not describe left out. */
  function Restrict(desired: Json, model: Model): Json
    decreases desired
  {
    match desired
    case Arr(items) => Arr(seq(|items|, i requires 0 <= i < |items| => Restrict(items[i], ItemModel(model))))
    case Obj(fields) =>
      Obj(map key | key in fields && Described(model, key) :: Restrict(fields[key], FieldModel(model, key)))
    case _ => desired
  }

  lemma ArraysRestrict(observed: Json, items: seq<Json>, model: Model)
    requires observed.Arr? && |observed.items| == |items| ==>
               forall i | 0 <= i < |items| ::
                 Matches(observed.items[i], items[i], ItemModel(model)) ==
                 Matches(observed.items[i], Restrict(items[i], ItemModel(model)), Plain)
    ensures Matches(observed, Arr(items), model) == Matches(observed, Restrict(Arr(items), model), Plain)
  {
    var kept := Restrict(Arr(items), model).items;
    assert forall i | 0 <= i < |items| :: kept[i] == Restrict(items[i], ItemModel(model));
  }

  /** Two objects match alike when they agree field by field, and one only lacks what the model hides. */
  lemma FieldByField(observed: Json, desired: Json, model: Model, kept: Json)
    requires desired.Obj? && kept.Obj?
    requires forall key | key in kept.fields :: key in desired.fields
    requires forall key | key in desired.fields ::
               FieldMatches(observed, desired, model, key) ==
               (key !in kept.fields || FieldMatches(observed, kept, Plain, key))
    ensures Matches(observed, desired, model) == Matches(observed, kept, Plain)
  {
    var all := forall key | key in desired.fields :: FieldMatches(observed, desired, model, key);
    assert Matches(observed, desired, model) == all;
    assert all == forall key | key in kept.fields :: FieldMatches(observed, kept, Plain, key);
  }

  lemma FieldRestricts(observed: Json, desired: Json, model: Model, key: string)
    requires desired.Obj? && key in desired.fields
    requires Described(model, key) ==>
               Matches(Field(observed, key), desired.fields[key], FieldModel(model, key)) ==
               Matches(Field(observed, key), Restrict(desired.fields[key], FieldModel(model, key)), Plain)
    ensures var kept := Restrict(desired, model);
            FieldMatches(observed, desired, model, key) ==
            (key !in kept.fields || FieldMatches(observed, kept, Plain, key))
  {
    if Described(model, key) {
      RestrictKeepsUndefined(desired.fields[key], FieldModel(model, key));
    }
  }

  lemma RestrictKeepsUndefined(desired: Json, model: Model)
    ensures Restrict(desired, model).Undefined? <==> desired.Undefined?
  {
  }

  /** Matching under a descriptor is plain matching against what the descriptor leaves of the desired value. */
  lemma {:induction false} DescriptorsRestrict(observed: Json, desired: Json, model: Model)
    ensures Matches(observed, desired, model) <==> Matches(observed, Restrict(desired, model), Plain)
    decreases desired
  {
    match desired
    case Arr(items) =>
      if observed.Arr? && |observed.items| == |items| {
        forall i | 0 <= i < |items|
          ensures Matches(observed.items[i], items[i], ItemModel(model)) ==
                  Matches(observed.items[i], Restrict(items[i], ItemModel(model)), Plain)
        {
          DescriptorsRestrict(observed.items[i], items[i], ItemModel(model));
        }
      }
      ArraysRestrict(observed, items, model);
    case Obj(fields) =>
      var kept := Restrict(desired, model);
      forall key | key in fields
        ensures FieldMatches(observed, desired, model, key) ==
                (key !in kept.fields || FieldMatches(observed, kept, Plain, key))
      {
        if Described(model, key) {
          DescriptorsRestrict(Field(observed, key), fields[key], FieldModel(model, key));
        }
        FieldRestricts(observed, desired, model, key);
      }
      FieldByField(observed, desired, model, kept);
    case _ =>
  }

  // ---- When there is drift ----

  datatype Step = Key(key: string) | Index(index: nat)

  function Inner(v: Json, step: Step): Json {
    match step
    case Key(key) => Field(v, key)
    case Index(i) => if v.Arr? && i < |v.items| then v.items[i] else Undefined
  }

  /** What a value holds at the end of a path, `undefined` where the path leaves it. */
  function At(v: Json, path: seq<Step>): Json
    decreases |path|
  {
    if path == [] then v else At(Inner(v, path[0]), path[1..])
  }

  /** What a descriptor knows of the part behind a step: a record knows its fields only, plain types know all. */
  function Known(model: Model, step: Step): Option<Model> {
    match model
    case Plain => Some(Plain)
    case ArrayOf(itemType) => Some(if step.Index? then itemType else Plain)
    case Record(types) =>
      match step
      case Key(key) => if key in types then Some(types[key]) else None
      case Index(_) => Some(Plain)
  }

  /** The path stays inside the desired value and takes only described fields. */
  predicate Reaches(desired: Json, model: Model, path: seq<Step>)
    decreases |path|
  {
    if path == [] then !desired.Undefined?
    else
      && Known(model, path[0]).Some?
      && match path[0]
         case Key(key) =>
           && desired.Obj? && key in desired.fields
           && Reaches(desired.fields[key], Known(model, path[0]).value, path[1..])
         case Index(i) =>
           && desired.Arr? && i < |desired.items|
           && Reaches(desired.items[i], Known(model, path[0]).value, path[1..])
  }

  /** A wanted scalar is there as it is; a wanted array meets one of its length; an object wants nothing itself. */
  predicate Meets(observed: Json, desired: Json) {
    match desired
    case Arr(items) => observed.Arr? && |observed.items| == |items|
    case Obj(_) => true
    case _ => observed == desired
  }

  ghost predicate NoDrift(observed: Json, desired: Json, model: Model) {
    forall path | Reaches(desired, model, path) :: Meets(At(observed, path), At(desired, path))
  }

  lemma {:induction false} MatchMeets(observed: Json, desired: Json, model: Model, path: seq<Step>)
    requires Matches(observed, desired, model) && Reaches(desired, model, path)
    ensures Meets(At(observed, path), At(desired, path))
    decreases |path|
  {
    if path != [] {
      match path[0]
      case Key(key) =>
        assert FieldMatches(observed, desired, model, key);
        ReachesDefined(desired.fields[key], FieldModel(model, key), path[1..]);
        MatchMeets(Field(observed, key), desired.fields[key], FieldModel(model, key), path[1..]);
      case Index(i) =>
        MatchMeets(observed.items[i], desired.items[i], ItemModel(model), path[1..]);
    }
  }

  lemma ReachesDefined(desired: Json, model: Model, path: seq<Step>)
    requires Reaches(desired, model, path)
    ensures !desired.Undefined?
  {
  }

  /** Below one step there is no drift either. */
  lemma DriftBelow(observed: Json, desired: Json, model: Model, step: Step, below: Json, wanted: Json, inner: Model)
    requires NoDrift(observed, desired, model)
    requires forall path :: Reaches(wanted, inner, path) ==> Reaches(desired, model, [step] + path)
    requires forall path :: At(observed, [step] + path) == At(below, path)
    requires forall path :: At(desired, [step] + path) == At(wanted, path)
    ensures NoDrift(below, wanted, inner)
  {
    forall path | Reaches(wanted, inner, path)
      ensures Meets(At(below, path), At(wanted, path))
    {
      assert Reaches(desired, model, [step] + path);
    }
  }

  lemma StepIn(v: Json, step: Step, path: seq<Step>)
    ensures At(v, [step] + path) == At(Inner(v, step), path)
  {
    assert ([step] + path)[1..] == path;
  }

  lemma FieldNoDrift(observed: Json, desired: Json, model: Model, key: string)
    requires NoDrift(observed, desired, model)
    requires desired.Obj? && key in desired.fields && Described(model, key)
    ensures NoDrift(Field(observed, key), desired.fields[key], FieldModel(model, key))
  {
    forall path
      ensures At(observed, [Key(key)] + path) == At(Field(observed, key), path)
      ensures At(desired, [Key(key)] + path) == At(desired.fields[key], path)
      ensures Reaches(desired.fields[key], FieldModel(model, key), path) ==> Reaches(desired, model, [Key(key)] + path)
    {
      StepIn(observed, Key(key), path);
      StepIn(desired, Key(key), path);
      assert ([Key(key)] + path)[1..] == path;
    }
    DriftBelow(
      observed, desired, model, Key(key), Field(observed, key), desired.fields[key], FieldModel(model, key));
  }

  lemma ItemNoDrift(observed: Json, desired: Json, model: Model, i: nat)
    requires NoDrift(observed, desired, model)
    requires desired.Arr? && i < |desired.items| && observed.Arr? && i < |observed.items|
    ensures NoDrift(observed.items[i], desired.items[i], ItemModel(model))
  {
    forall path
      ensures At(observed, [Index(i)] + path) == At(observed.items[i], path)
      ensures At(desired, [Index(i)] + path) == At(desired.items[i], path)
      ensures Reaches(desired.items[i], ItemModel(model), path) ==> Reaches(desired, model, [Index(i)] + path)
    {
      StepIn(observed, Index(i), path);
      StepIn(desired, Index(i), path);
      assert ([Index(i)] + path)[1..] == path;
    }
    DriftBelow(observed, desired, model, Index(i), observed.items[i], desired.items[i], ItemModel(model));
  }

  lemma {:induction false} NoDriftMatches(observed: Json, desired: Json, model: Model)
    requires NoDrift(observed, desired, model)
    ensures Matches(observed, desired, model)
    decreases desired
  {
    if !desired.Undefined? {
      assert Reaches(desired, model, []) && Meets(At(observed, []), At(desired, []));
    }
    match desired
    case Arr(items) =>
      forall i | 0 <= i < |items|
        ensures Matches(observed.items[i], items[i], ItemModel(model))
      {
        ItemNoDrift(observed, desired, model, i);
        NoDriftMatches(observed.items[i], items[i], ItemModel(model));
      }
    case Obj(fields) =>
      forall key | key in fields
        ensures FieldMatches(observed, desired, model, key)
      {
        if Described(model, key) {
          FieldNoDrift(observed, desired, model, key);
          NoDriftMatches(Field(observed, key), fields[key], FieldModel(model, key));
        }
      }
    case _ =>
  }

  /**
   There is a match exactly when every scalar the desired value holds at a described path is observed there, and
   every array meets one of its length.
   */
  lemma MatchesIffNoDrift(observed: Json, desired: Json, model: Model)
    ensures Matches(observed, desired, model) <==> NoDrift(observed, desired, model)
  {
    if Matches(observed, desired, model) {
      forall path | Reaches(desired, model, path)
        ensures Meets(At(observed, path), At(desired, path))
      {
        MatchMeets(observed, desired, model, path);
      }
    }
    if NoDrift(observed, desired, model) {
      NoDriftMatches(observed, desired, model);
    }
  }

  /** So any other scalar observed where one is wanted is drift. */
  lemma ScalarDrifts(observed: Json, desired: Json, model: Model, path: seq<Step>)
    requires Reaches(desired, model, path) && !At(desired, path).Arr? && !At(desired, path).Obj?
    requires At(observed, path) != At(desired, path)
    ensures !Matches(observed, desired, model)
  {
    MatchesIffNoDrift(observed, desired, model);
  }
}
