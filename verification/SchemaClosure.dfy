/** Selecting one message schema out of the bundled document (`contract.rs`): the
    worklist over `#/$defs/` references, and what it selects. */
module SchemaClosure {
  import opened Wrappers
  import opened Jcs

  type Members = map<string, Value>

  const DEFS_PREFIX := "#/$defs/"

  datatype SchemaError = DefsMissing | KindMissing

  /** The definition a reference names: one step below `$defs`. */
  function DefName(reference: string): Option<string> {
    if !(DEFS_PREFIX <= reference) then None
    else
      var name := reference[|DEFS_PREFIX|..];
      if name != "" && '/' !in name then Some(name) else None
  }

  function OwnRef(m: Members): set<string> {
    if "$ref" in m && m["$ref"].Str? && DefName(m["$ref"].text).Some? then {DefName(m["$ref"].text).value} else {}
  }

  /** Every definition named anywhere inside `v`. */
  function Refs(v: Value): set<string> {
    match v
    case Obj(m) => OwnRef(m) + (set key, name | key in m && name in Refs(m[key]) :: name)
    case Arr(items) => set i, name | 0 <= i < |items| && name in Refs(items[i]) :: name
    case _ => {}
  }

  // ----- Reachability -----

  /** A chain of references, from `root` through definitions. */
  predicate Path(defs: Members, root: Value, path: seq<string>) {
    && path != [] && path[0] in Refs(root)
    && forall k :: 0 <= k < |path| - 1 ==> path[k] in defs && path[k + 1] in Refs(defs[path[k]])
  }

  ghost predicate Reachable(defs: Members, root: Value, name: string) {
    exists path :: Path(defs, root, path) && path[|path| - 1] == name
  }

  lemma ReachableStep(defs: Members, root: Value, name: string, next: string)
    requires Reachable(defs, root, name) && name in defs && next in Refs(defs[name])
    ensures Reachable(defs, root, next)
  {
    var path :| Path(defs, root, path) && path[|path| - 1] == name;
    assert Path(defs, root, path + [next]);
    assert (path + [next])[|path|] == next;
  }

  lemma ReachableRoot(defs: Members, root: Value, name: string)
    requires name in Refs(root)
    ensures Reachable(defs, root, name)
  {
    assert Path(defs, root, [name]);
  }

  ghost predicate ClosedUnder(defs: Members, root: Value, names: set<string>) {
    Refs(root) <= names && forall name :: name in names ==> name in defs && Refs(defs[name]) <= names
  }

  lemma {:induction false} PathStaysInside(defs: Members, root: Value, names: set<string>, path: seq<string>, k: nat)
    requires ClosedUnder(defs, root, names) && Path(defs, root, path) && k < |path|
    ensures path[k] in names
  {
    if k > 0 {
      PathStaysInside(defs, root, names, path, k - 1);
      assert path[k - 1 + 1] in Refs(defs[path[k - 1]]);
    }
  }

  lemma ClosedHoldsReachable(defs: Members, root: Value, names: set<string>)
    requires ClosedUnder(defs, root, names)
    ensures forall name :: Reachable(defs, root, name) ==> name in names
  {
    forall name | Reachable(defs, root, name) ensures name in names {
      var path :| Path(defs, root, path) && path[|path| - 1] == name;
      PathStaysInside(defs, root, names, path, |path| - 1);
    }
  }

  // ----- The selected document -----

  /** The definitions under `names`. */
  function Restricted(defs: Members, names: set<string>): (m: Members)
    requires names <= defs.Keys
    ensures m.Keys == names && forall name :: name in names ==> m[name] == defs[name]
  {
    map name | name in names :: defs[name]
  }

  /** The chosen definition without `$id`, under the entry's `$schema` unless it
      has its own, and with its own `$defs`. */
  function Document(entry: Members, def: Members, selected: Members): Members {
    (if "$schema" in entry then map["$schema" := entry["$schema"]] else map[])
    + (def - {"$id"})
    + map["$defs" := Obj(selected)]
  }

  lemma RefsOfMembers(m: Members)
    ensures forall key, name :: key in m && name in Refs(m[key]) ==> name in Refs(Obj(m))
    ensures forall name :: name in Refs(Obj(m)) ==> name in OwnRef(m) || exists key :: key in m && name in Refs(m[key])
  {
  }

  /** References that come neither from the definition nor from those it needs:
      inside an entry `$schema` that is taken over, or a definition called `$ref`. */
  function Stray(entry: Members, def: Members, selected: Members): set<string> {
    (if "$schema" in entry && "$schema" !in def then Refs(entry["$schema"]) else {}) + OwnRef(selected)
  }

  /** Every reference in the returned document resolves inside its own `$defs`,
      if and only if the stray ones do. */
  lemma DocumentResolvesIff(entry: Members, defs: Members, def: Members, names: set<string>)
    requires ClosedUnder(defs, Obj(def), names)
    ensures var selected := Restricted(defs, names);
            Refs(Obj(Document(entry, def, selected))) <= names <==> Stray(entry, def, selected) <= names
  {
    var selected := Restricted(defs, names);
    var doc := Document(entry, def, selected);
    hide Refs, OwnRef, Document, ClosedUnder;
    SelectedRefs(defs, Obj(def), names);
    RefsOfMembers(doc);
    DocumentParts(entry, defs, def, names);
    if Stray(entry, def, selected) <= names {
      forall name | name in Refs(Obj(doc)) ensures name in names {
        if name !in OwnRef(doc) {
          var key :| key in doc && name in Refs(doc[key]);
          assert key == "$schema" || Refs(doc[key]) <= names + OwnRef(selected);
        }
      }
    } else {
      MemberRefs(doc, "$defs");
      if "$schema" in doc {
        MemberRefs(doc, "$schema");
      }
    }
  }

  /** When `$schema` is a string, the name of a dialect, and no definition is called
      `$ref`, the document resolves. */
  lemma PlainDocumentResolves(entry: Members, defs: Members, def: Members, names: set<string>)
    requires ClosedUnder(defs, Obj(def), names)
    requires "$schema" in entry ==> entry["$schema"].Str?
    requires "$ref" !in defs
    ensures Refs(Obj(Document(entry, def, Restricted(defs, names)))) <= names
  {
    DocumentResolvesIff(entry, defs, def, names);
  }

  const STRAY_REF: Value := Obj(map["$ref" := Str("#/$defs/lost")])
  const STRAY_DEFS: Members := map["a" := Obj(map[])]
  const STRAY_ENTRY: Members := map["$schema" := STRAY_REF, "$defs" := Obj(STRAY_DEFS)]

  /** An entry whose `$schema` holds a reference of its own: definition `a` reaches
      nothing, so it is selected, and the document names a definition it lacks. */
  lemma StrayReferenceIsLost()
    ensures ChosenDef(Obj(STRAY_ENTRY), "a") == Success((STRAY_DEFS, map[]))
    ensures ClosedUnder(STRAY_DEFS, Obj(map[]), {}) && forall name :: !Reachable(STRAY_DEFS, Obj(map[]), name)
    ensures "lost" in Refs(Obj(Document(STRAY_ENTRY, map[], Restricted(STRAY_DEFS, {}))))
  {
    NothingReached();
    LostIsNamed();
    hide Refs, Reachable;
    var doc := Document(STRAY_ENTRY, map[], Restricted(STRAY_DEFS, {}));
    assert "$schema" in doc && doc["$schema"] == STRAY_REF;
    MemberRefs(doc, "$schema");
  }

  lemma NothingReached()
    ensures ClosedUnder(STRAY_DEFS, Obj(map[]), {}) && forall name :: !Reachable(STRAY_DEFS, Obj(map[]), name)
  {
    assert Refs(Obj(map[])) == {};
    hide Refs, Reachable;
    ClosedHoldsReachable(STRAY_DEFS, Obj(map[]), {});
  }

  lemma LostIsNamed()
    ensures Refs(STRAY_REF) == {"lost"}
  {
    var reference := "#/$defs/lost";
    assert reference[|DEFS_PREFIX|..] == "lost";
    assert DEFS_PREFIX == reference[..|DEFS_PREFIX|];
    assert OwnRef(STRAY_REF.members) == {"lost"};
  }

  /** Where the references of the document come from. */
  lemma DocumentParts(entry: Members, defs: Members, def: Members, names: set<string>)
    requires ClosedUnder(defs, Obj(def), names)
    ensures var selected := Restricted(defs, names);
            var doc := Document(entry, def, selected);
            && OwnRef(doc) <= names
            && "$defs" in doc && doc["$defs"] == Obj(selected)
            && (forall key :: key in doc && key != "$schema" ==> Refs(doc[key]) <= names + OwnRef(selected))
            && ("$schema" in doc <==> "$schema" in entry || "$schema" in def)
            && ("$schema" in doc ==> if "$schema" in def then Refs(doc["$schema"]) <= names
                else doc["$schema"] == entry["$schema"])
  {
    hide Refs, OwnRef;
    var selected := Restricted(defs, names);
    var doc := Document(entry, def, selected);
    SelectedRefs(defs, Obj(def), names);
    DocumentOwnRef(entry, def, selected);
    OwnIsInRefs(def);
    forall key | key in doc && key != "$schema" ensures Refs(doc[key]) <= names + OwnRef(selected) {
      if key != "$defs" {
        MemberRefs(def, key);
      }
    }
    if "$schema" in def {
      MemberRefs(def, "$schema");
    }
  }

  lemma MemberRefs(m: Members, key: string)
    requires key in m
    ensures Refs(m[key]) <= Refs(Obj(m))
  {
    RefsOfMembers(m);
  }

  lemma SelectedRefs(defs: Members, root: Value, names: set<string>)
    requires ClosedUnder(defs, root, names)
    ensures OwnRef(Restricted(defs, names)) <= Refs(Obj(Restricted(defs, names))) <= names
              + OwnRef(Restricted(defs, names))
  {
    hide Refs, OwnRef;
    RefsOfMembers(Restricted(defs, names));
    OwnIsInRefs(Restricted(defs, names));
  }

  lemma DocumentOwnRef(entry: Members, def: Members, selected: Members)
    ensures OwnRef(Document(entry, def, selected)) == OwnRef(def)
  {
    hide DefName;
    var doc := Document(entry, def, selected);
    assert "$ref" in doc <==> "$ref" in def;
  }

  lemma OwnIsInRefs(m: Members)
    ensures OwnRef(m) <= Refs(Obj(m))
  {
  }

  // ----- The worklist -----

  ghost function RefsIn(m: Members, keys: set<string>): set<string> {
    set key, name | key in keys && key in m && name in Refs(m[key]) :: name
  }

  ghost function RefsUpTo(items: seq<Value>, i: nat): set<string>
    requires i <= |items|
  {
    set j, name | 0 <= j < i && name in Refs(items[j]) :: name
  }

  lemma RefsUnfold(v: Value)
    ensures v.Obj? ==> Refs(v) == OwnRef(v.members) + RefsIn(v.members, v.members.Keys)
    ensures v.Arr? ==> Refs(v) == RefsUpTo(v.items, |v.items|)
    ensures !v.Obj? && !v.Arr? ==> Refs(v) == {}
  {
  }

  lemma RefsInPush(m: Members, keys: set<string>, key: string)
    requires key in m
    ensures RefsIn(m, keys + {key}) == RefsIn(m, keys) + Refs(m[key])
  {
    hide Refs;
  }

  lemma NoRefsIn(m: Members)
    ensures RefsIn(m, {}) == {}
  {
  }

  lemma NoRefsUpTo(items: seq<Value>)
    ensures RefsUpTo(items, 0) == {}
  {
  }

  lemma RefsUpToPush(items: seq<Value>, i: nat)
    requires i < |items|
    ensures RefsUpTo(items, i + 1) == RefsUpTo(items, i) + Refs(items[i])
  {
    hide Refs;
  }

  /** `collect_def_refs`. */
  method CollectDefRefs(v: Value, found: set<string>) returns (out: set<string>)
    ensures out == found + Refs(v)
    decreases v, 1
  {
    hide Refs, RefsIn, RefsUpTo, OwnRef;
    RefsUnfold(v);
    match v {
      case Obj(m) => out := CollectMembers(v, found + OwnRef(m));
      case Arr(items) => out := CollectItems(v, found);
      case _ => out := found;
    }
  }

  method CollectMembers(v: Value, found: set<string>) returns (out: set<string>)
    requires v.Obj?
    ensures out == found + RefsIn(v.members, v.members.Keys)
    decreases v, 0
  {
    hide Refs, RefsIn;
    out := found;
    var m := v.members;
    var keys := m.Keys;
    ghost var seen: set<string> := {};
    NoRefsIn(m);
    while keys != {}
      invariant keys !! seen && keys + seen == m.Keys
      invariant out == found + RefsIn(m, seen)
      decreases |keys|
    {
      var key :| key in keys;
      RefsInPush(m, seen, key);
      out := CollectDefRefs(m[key], out);
      keys := keys - {key};
      seen := seen + {key};
    }
    assert seen == m.Keys;
  }

  method CollectItems(v: Value, found: set<string>) returns (out: set<string>)
    requires v.Arr?
    ensures out == found + RefsUpTo(v.items, |v.items|)
    decreases v, 0
  {
    hide Refs, RefsUpTo;
    out := found;
    NoRefsUpTo(v.items);
    var i := 0;
    while i < |v.items|
      invariant i <= |v.items|
      invariant out == found + RefsUpTo(v.items, i)
    {
      RefsUpToPush(v.items, i);
      out := CollectDefRefs(v.items[i], out);
      i := i + 1;
    }
  }

  /** Everything any reference can name. */
  ghost function Mentioned(defs: Members, root: Value): set<string> {
    Refs(root) + (set key, name | key in defs && name in Refs(defs[key]) :: name)
  }

  method AsStack(names: set<string>) returns (stack: seq<string>)
    ensures forall name :: name in stack <==> name in names
  {
    stack := [];
    var rest := names;
    while rest != {}
      invariant forall name :: name in names <==> name in rest || name in stack
      decreases |rest|
    {
      var name :| name in rest;
      stack, rest := stack + [name], rest - {name};
    }
  }

  /** Put what is new on the stack. */
  method PushNew(extra: set<string>, needed: set<string>, stack: seq<string>)
    returns (more: set<string>, longer: seq<string>)
    ensures more == needed + extra
    ensures stack <= longer && forall name :: name in longer ==> name in stack || name in extra
    ensures forall name :: name in extra && name !in needed ==> name in longer
    ensures extra <= needed ==> longer == stack
  {
    more, longer := needed, stack;
    var rest := extra;
    while rest != {}
      invariant rest <= extra && more == needed + (extra - rest)
      invariant stack <= longer && forall name :: name in longer ==> name in stack || name in extra
      invariant forall name :: name in extra - rest && name !in needed ==> name in longer
      invariant extra <= needed ==> longer == stack
      decreases |rest|
    {
      var name :| name in rest;
      if name !in more {
        longer := longer + [name];
      }
      more, rest := more + {name}, rest - {name};
    }
  }

  /** The worklist ends, with exactly the reachable names, or with one that is
      reachable and not defined. */
  method NeededNames(defs: Members, def: Value) returns (r: Result<set<string>, SchemaError>)
    ensures r.Success? ==> ClosedUnder(defs, def, r.value) && forall name :: name in r.value <==>
              Reachable(defs, def, name)
    ensures r.Failure? <==> exists name :: Reachable(defs, def, name) && name !in defs
    ensures r.Failure? ==> r.error == KindMissing
  {
    hide Refs, Reachable;
    ghost var all := Mentioned(defs, def);
    var needed := CollectDefRefs(def, {});
    forall name | name in needed ensures Reachable(defs, def, name) {
      ReachableRoot(defs, def, name);
    }
    var stack := AsStack(needed);
    while stack != []
      invariant Refs(def) <= needed <= all
      invariant forall name :: name in stack ==> name in needed
      invariant forall name :: name in needed ==> Reachable(defs, def, name)
      invariant forall name :: name in needed && name !in stack ==> name in defs && Refs(defs[name]) <= needed
      decreases all - needed, |stack|
    {
      var name := stack[|stack| - 1];
      ghost var before := stack;
      stack := stack[..|stack| - 1];
      assert forall other :: other in before ==> other in stack || other == name;
      if name !in defs {
        return Failure(KindMissing);
      }
      var extra := CollectDefRefs(defs[name], {});
      forall next | next in extra ensures Reachable(defs, def, next) {
        ReachableStep(defs, def, name, next);
      }
      needed, stack := PushNew(extra, needed, stack);
    }
    ClosedHoldsReachable(defs, def, needed);
    return Success(needed);
  }

  /** The two lookups before the worklist. */
  function ChosenDef(entry: Value, name: string): Result<(Members, Members), SchemaError> {
    if !entry.Obj? || "$defs" !in entry.members || !entry.members["$defs"].Obj? then Failure(DefsMissing)
    else
      var defs := entry.members["$defs"].members;
      if name !in defs || !defs[name].Obj? then Failure(KindMissing) else Success((defs, defs[name].members))
  }

  /** `select_message_schema`: fails when the definition is missing or something it
      reaches is; else returns it with exactly the definitions it reaches. */
  method SelectMessageSchema(entry: Value, name: string) returns (r: Result<Value, SchemaError>)
    ensures ChosenDef(entry, name).Failure? ==> r == Failure(ChosenDef(entry, name).error)
    ensures ChosenDef(entry, name).Success? ==>
              var (defs, def) := ChosenDef(entry, name).value;
              if exists needed :: Reachable(defs, Obj(def), needed) && needed !in defs then r == Failure(KindMissing)
              else
                exists names: set<string> ::
                  && (forall needed :: needed in names <==> Reachable(defs, Obj(def), needed))
                  && ClosedUnder(defs, Obj(def), names)
                  && r == Success(Obj(Document(entry.members, def, Restricted(defs, names))))
  {
    hide Refs, Reachable, Document, Restricted, ClosedUnder;
    var chosen := ChosenDef(entry, name);
    if chosen.Failure? {
      return Failure(chosen.error);
    }
    var (defs, def) := chosen.value;
    var needed := NeededNames(defs, Obj(def));
    if needed.Failure? {
      return Failure(needed.error);
    }
    ClosedIsDefined(defs, Obj(def), needed.value);
    var selected := SelectDefs(defs, needed.value);
    return Success(Obj(Document(entry.members, def, selected)));
  }

  lemma ClosedIsDefined(defs: Members, root: Value, names: set<string>)
    requires ClosedUnder(defs, root, names)
    ensures names <= defs.Keys
  {
  }

  method SelectDefs(defs: Members, names: set<string>) returns (selected: Members)
    requires names <= defs.Keys
    ensures selected == Restricted(defs, names)
  {
    selected := map[];
    var rest := names;
    while rest != {}
      invariant rest <= names && selected.Keys == names - rest
      invariant forall key :: key in selected ==> selected[key] == defs[key]
      decreases |rest|
    {
      var key :| key in rest;
      selected, rest := selected[key := defs[key]], rest - {key};
    }
  }
}
