/**
 Layered configuration: precedence layers merged in order, the provenance of role models and reasoning
 efforts, and the rule that drops an effort inherited from below a model change.
 */
module ConfigLayers {
  import opened Base

  datatype Role = RouterRole | WorkerRole

  /** The four role keys have rules of their own; every other key is merged as it comes. */
  datatype Key = Model(role: Role) | Effort(role: Role) | Plain(name: string)

  /** A raw setting: environment values are text, typed TOML values may be numbers or booleans. */
  datatype Value = Text(text: string) | Number(n: int) | Boolean(b: bool)

  type Settings = map<Key, Value>

  /** The whitespace a strip removes, up to the Latin-1 range. */
  predicate IsSpace(c: char) {
    c == ' ' || '\t' <= c <= '\r' || '\U{1C}' <= c <= '\U{1F}' || c == '\U{85}' || c == '\U{A0}'
  }

  lemma {:induction false} SpaceMeaning(c: char)
    ensures IsSpace(c) <==> c as int in {9, 10, 11, 12, 13, 28, 29, 30, 31, 32, 133, 160}
  {
  }

  predicate Blank(s: string) {
    forall i :: 0 <= i < |s| ==> IsSpace(s[i])
  }

  /** What is left of a text once the whitespace at both ends is gone. */
  function Strip(s: string): string {
    if s != "" && IsSpace(s[0]) then Strip(s[1..])
    else if s != "" && IsSpace(s[|s| - 1]) then Strip(s[..|s| - 1])
    else s
  }

  lemma {:induction false} StripMeaning(s: string)
    ensures Strip(s) == "" <==> Blank(s)
  {
    if s != "" && IsSpace(s[0]) {
      StripMeaning(s[1..]);
      assert forall i :: 0 < i < |s| ==> s[i] == s[1..][i - 1];
      assert forall i :: 0 <= i < |s[1..]| ==> s[1..][i] == s[i + 1];
    } else if s != "" {
      assert !IsSpace(s[0]);
      if IsSpace(s[|s| - 1]) {
        StripMeaning(s[..|s| - 1]);
        assert s[..|s| - 1][0] == s[0];
      }
    }
  }

  /** A setting counts as set when its text is not blank, its number not zero, its flag on. */
  lemma {:induction false} SetMeaning(v: Value)
    ensures EffectivelySet(v) <==>
            (v.Text? && Strip(v.text) != "") || (v.Number? && v.n != 0) || (v.Boolean? && v.b)
  {
    if v.Text? {
      StripMeaning(v.text);
    }
  }

  /** Truthy, and not blank when written out. */
  predicate EffectivelySet(v: Value) {
    match v
    case Text(s) => !Blank(s)
    case Number(n) => n != 0
    case Boolean(b) => b
  }

  datatype Layer = Layer(number: nat, values: Settings)

  predicate Ascending(layers: seq<Layer>) {
    forall i, j :: 0 <= i < j < |layers| ==> layers[i].number < layers[j].number
  }

  predicate Sets(layer: Layer, k: Key) {
    k in layer.values && EffectivelySet(layer.values[k])
  }

  predicate Written(layer: Layer, k: Key) {
    k in layer.values && (k.Plain? || EffectivelySet(layer.values[k]))
  }

  function Get(values: Settings, k: Key): Option<Value> {
    if k in values then Some(values[k]) else None
  }

  datatype Loaded = Loaded(values: Settings, provenance: map<Key, nat>)

  /** A model key advances its provenance only when the layer changes the effective model; an effort key always. */
  predicate Recorded(values: Settings, layer: Layer, k: Key) {
    !k.Plain? && Sets(layer, k) && (k.Model? ==> Get(values, k) != Some(layer.values[k]))
  }

  function Merge(values: Settings, layer: Layer): Settings {
    values + map k | k in layer.values && Written(layer, k) :: layer.values[k]
  }

  function RecordKeys(provenance: map<Key, nat>, values: Settings, layer: Layer, keys: seq<Key>): map<Key, nat> {
    if keys == [] then provenance
    else
      var last := keys[|keys| - 1];
      var before := RecordKeys(provenance, values, layer, keys[..|keys| - 1]);
      if Recorded(values, layer, last) then before[last := layer.number] else before
  }

  const ProvenanceKeys: seq<Key> := [Model(RouterRole), Effort(RouterRole), Model(WorkerRole), Effort(WorkerRole)]

  function Apply(l: Loaded, layer: Layer): Loaded {
    Loaded(Merge(l.values, layer), RecordKeys(l.provenance, l.values, layer, ProvenanceKeys))
  }

  function ApplyAll(layers: seq<Layer>): Loaded {
    if layers == [] then Loaded(map[], map[]) else Apply(ApplyAll(layers[..|layers| - 1]), layers[|layers| - 1])
  }

  /** The model was last changed above the layer that last set the effort. */
  predicate Inherited(l: Loaded, role: Role) {
    && Effort(role) in l.values && Model(role) in l.provenance
    && (Effort(role) in l.provenance ==> l.provenance[Effort(role)] < l.provenance[Model(role)])
  }

  function Clear(l: Loaded): Loaded {
    l.(values := map k | k in l.values && !(k.Effort? && Inherited(l, k.role)) :: l.values[k])
  }

  function Load(layers: seq<Layer>): Loaded {
    Clear(ApplyAll(layers))
  }

  // ---- an independent reading -------------------------------------------------------------

  /** The value of the highest layer that effectively sets the key. */
  function LastSet(layers: seq<Layer>, k: Key): Option<Value> {
    if layers == [] then None
    else if Sets(layers[|layers| - 1], k) then Some(layers[|layers| - 1].values[k])
    else LastSet(layers[..|layers| - 1], k)
  }

  predicate ChangesModel(layers: seq<Layer>, j: nat, role: Role)
    requires j < |layers|
  {
    LastSet(layers[..j + 1], Model(role)) != LastSet(layers[..j], Model(role))
  }

  /** Position of the highest layer that sets the effort, or -1. */
  function EffortAt(layers: seq<Layer>, role: Role): (at: int)
    ensures -1 <= at < |layers|
  {
    if layers == [] then -1
    else if Sets(layers[|layers| - 1], Effort(role)) then |layers| - 1
    else EffortAt(layers[..|layers| - 1], role)
  }

  /** Position of the highest layer that changes the effective model, or -1. */
  function ModelAt(layers: seq<Layer>, role: Role): (at: int)
    ensures -1 <= at < |layers|
  {
    if layers == [] then -1
    else if LastSet(layers, Model(role)) != LastSet(layers[..|layers| - 1], Model(role)) then |layers| - 1
    else ModelAt(layers[..|layers| - 1], role)
  }

  lemma {:induction false} MergedRoleValue(layers: seq<Layer>, k: Key)
    requires !k.Plain?
    ensures Get(ApplyAll(layers).values, k) == LastSet(layers, k)
  {
    if layers != [] {
      MergedRoleValue(layers[..|layers| - 1], k);
    }
  }

  function NumberAt(layers: seq<Layer>, at: int): Option<nat> {
    if 0 <= at < |layers| then Some(layers[at].number) else None
  }

  function Provenance(l: Loaded, k: Key): Option<nat> {
    if k in l.provenance then Some(l.provenance[k]) else None
  }

  /** Each key's provenance is decided by the key alone. */
  lemma {:induction false} RecordKeysAt(provenance: map<Key, nat>, values: Settings, layer: Layer, keys: seq<Key>, k: Key)
    ensures
      var after := RecordKeys(provenance, values, layer, keys);
      if k in keys && Recorded(values, layer, k) then k in after && after[k] == layer.number
      else (k in after <==> k in provenance) && (k in after ==> after[k] == provenance[k])
  {
    if keys != [] {
      RecordKeysAt(provenance, values, layer, keys[..|keys| - 1], k);
      assert keys == keys[..|keys| - 1] + [keys[|keys| - 1]];
    }
  }

  lemma {:induction false} ProvenanceKeysComplete(k: Key)
    requires !k.Plain?
    ensures k in ProvenanceKeys
  {
    assert ProvenanceKeys[0] == Model(RouterRole) && ProvenanceKeys[1] == Effort(RouterRole);
    assert ProvenanceKeys[2] == Model(WorkerRole) && ProvenanceKeys[3] == Effort(WorkerRole);
    assert k.role == RouterRole || k.role == WorkerRole;
    assert k.Model? || k.Effort?;
  }

  /** The recorded provenance is the number of the layer the independent reading points at. */
  lemma {:induction false} ProvenanceMeaning(layers: seq<Layer>, role: Role)
    ensures Provenance(ApplyAll(layers), Effort(role)) == NumberAt(layers, EffortAt(layers, role))
    ensures Provenance(ApplyAll(layers), Model(role)) == NumberAt(layers, ModelAt(layers, role))
  {
    if layers != [] {
      var front, last := layers[..|layers| - 1], layers[|layers| - 1];
      ProvenanceMeaning(front, role);
      MergedRoleValue(front, Model(role));
      var l := ApplyAll(front);
      ProvenanceKeysComplete(Model(role));
      ProvenanceKeysComplete(Effort(role));
      RecordKeysAt(l.provenance, l.values, last, ProvenanceKeys, Model(role));
      RecordKeysAt(l.provenance, l.values, last, ProvenanceKeys, Effort(role));
    }
  }

  lemma {:induction false} ModelAtMeaning(layers: seq<Layer>, role: Role, e: int)
    requires -1 <= e < |layers|
    ensures ModelAt(layers, role) <= e <==> forall j :: e < j < |layers| ==> !ChangesModel(layers, j, role)
  {
    if layers != [] && e < |layers| - 1 {
      var front, n := layers[..|layers| - 1], |layers| - 1;
      ModelAtMeaning(front, role, e);
      assert layers[..n + 1] == layers;
      assert ChangesModel(layers, n, role) <==> LastSet(layers, Model(role)) != LastSet(front, Model(role));
      forall j | e < j < n ensures ChangesModel(layers, j, role) <==> ChangesModel(front, j, role) {
        assert front[..j + 1] == layers[..j + 1] && front[..j] == layers[..j];
      }
    }
  }

  /** The effort theorem: for any number of layers, a role's effort survives loading exactly when some layer set
      it and no layer above the last one that did changed the effective model; and then it is that layer's value. */
  lemma {:induction false} EffortTheorem(layers: seq<Layer>, role: Role)
    requires Ascending(layers)
    ensures
      var e := EffortAt(layers, role);
      && (Effort(role) in Load(layers).values <==>
            0 <= e && forall j :: e < j < |layers| ==> !ChangesModel(layers, j, role))
      && (Effort(role) in Load(layers).values ==>
            Get(Load(layers).values, Effort(role)) == Get(layers[e].values, Effort(role)))
    ensures Get(Load(layers).values, Model(role)) == LastSet(layers, Model(role))
  {
    var e := EffortAt(layers, role);
    ProvenanceMeaning(layers, role);
    MergedRoleValue(layers, Effort(role));
    MergedRoleValue(layers, Model(role));
    EffortValue(layers, role);
    ModelAtMeaning(layers, role, e);
  }

  lemma {:induction false} EffortValue(layers: seq<Layer>, role: Role)
    ensures
      var e := EffortAt(layers, role);
      && (0 <= e <==> LastSet(layers, Effort(role)).Some?)
      && (0 <= e ==> Sets(layers[e], Effort(role)) && LastSet(layers, Effort(role)) == Some(layers[e].values[Effort(role)]))
  {
    if layers != [] && !Sets(layers[|layers| - 1], Effort(role)) {
      EffortValue(layers[..|layers| - 1], role);
    }
  }

  // ---- the loader -------------------------------------------------------------------------

  class Loader {
    var values: Settings
    var provenance: map<Key, nat>

    ghost function View(): Loaded
      reads this
    {
      Loaded(values, provenance)
    }

    constructor ()
      ensures View() == Loaded(map[], map[])
    {
      values, provenance := map[], map[];
    }

    method ApplyLayer(layer: Layer)
      modifies this
      ensures View() == Apply(old(View()), layer)
    {
      var incumbent := values;
      var rest := layer.values.Keys;
      while rest != {}
        invariant rest <= layer.values.Keys && provenance == old(provenance)
        invariant forall k :: k !in rest && Written(layer, k) ==> k in values && values[k] == layer.values[k]
        invariant forall k :: (k in rest || !Written(layer, k)) && k in incumbent ==> k in values && values[k] == incumbent[k]
        invariant forall k :: k in values ==> k in incumbent || (k !in rest && Written(layer, k))
        decreases rest
      {
        var k :| k in rest;
        rest := rest - {k};
        if k.Plain? || EffectivelySet(layer.values[k]) {
          values := values[k := layer.values[k]];
        }
      }
      assert values == Merge(incumbent, layer);
      RecordLayer(layer, incumbent);
    }

    method RecordLayer(layer: Layer, incumbent: Settings)
      modifies this`provenance
      ensures provenance == RecordKeys(old(provenance), incumbent, layer, ProvenanceKeys)
    {
      var i := 0;
      while i < |ProvenanceKeys|
        invariant 0 <= i <= |ProvenanceKeys|
        invariant provenance == RecordKeys(old(provenance), incumbent, layer, ProvenanceKeys[..i])
      {
        var k := ProvenanceKeys[i];
        assert ProvenanceKeys[..i + 1][..i] == ProvenanceKeys[..i];
        if k in layer.values && EffectivelySet(layer.values[k]) {
          if !(k.Model? && Get(incumbent, k) == Some(layer.values[k])) {
            provenance := provenance[k := layer.number];
          }
        }
        i := i + 1;
      }
      assert ProvenanceKeys[..i] == ProvenanceKeys;
    }

    method ClearInheritedEffort()
      modifies this`values
      ensures View() == Clear(old(View()))
    {
      ghost var before := View();
      if Effort(RouterRole) in values && Number(Model(RouterRole)) > Number(Effort(RouterRole)) {
        values := values - {Effort(RouterRole)};
      }
      if Effort(WorkerRole) in values && Number(Model(WorkerRole)) > Number(Effort(WorkerRole)) {
        values := values - {Effort(WorkerRole)};
      }
      forall k | k in before.values ensures k in values <==> !(k.Effort? && Inherited(before, k.role)) {
        assert k.Effort? ==> k.role == RouterRole || k.role == WorkerRole;
      }
    }

    /** The provenance of a key, -1 when none was recorded. */
    function Number(k: Key): int
      reads this
    {
      if k in provenance then provenance[k] else -1
    }

    method LoadLayers(layers: seq<Layer>)
      requires View() == Loaded(map[], map[])
      modifies this
      ensures View() == Load(layers)
    {
      var i := 0;
      while i < |layers|
        invariant 0 <= i <= |layers|
        invariant View() == ApplyAll(layers[..i])
      {
        assert layers[..i + 1][..i] == layers[..i];
        ApplyLayer(layers[i]);
        i := i + 1;
      }
      assert layers[..i] == layers;
      ClearInheritedEffort();
    }
  }
}
