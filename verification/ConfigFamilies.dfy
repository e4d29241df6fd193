/**
 Endpoint families: several spellings of one setting, resolved by the layer that supplied each spelling and
 then by declaration order, with a guard against half a host/port pair.
 */
module ConfigFamilies {
  import opened Base
  import opened ConfigLayers

  /** Present and not blank; a typed zero counts as a value. */
  predicate FamilyKeySet(v: Option<Value>) {
    v.Some? && (v.value.Text? ==> !Blank(v.value.text))
  }

  /** A family key counts as set whenever it is there and its text is not blank: zero and false included. */
  lemma {:induction false} FamilySetMeaning(v: Option<Value>)
    ensures FamilyKeySet(v) <==> v.Some? && (v.value.Text? ==> Strip(v.value.text) != "")
  {
    if v.Some? && v.value.Text? {
      StripMeaning(v.value.text);
    }
  }

  datatype Member = Member(name: string, keys: seq<Key>)

  const SttMembers: seq<Member> :=
    [Member("endpoint", [Plain("WEBSEARCH_STT_ENDPOINT")]), Member("socket", [Plain("WEBSEARCH_STT_WS_SOCKET")])]

  const TtsHost := Plain("WEBSEARCH_TTS_WS_HOST")
  const TtsPort := Plain("WEBSEARCH_TTS_WS_PORT")

  const TtsMembers: seq<Member> :=
    [Member("endpoint", [Plain("WEBSEARCH_TTS_ENDPOINT")]), Member("uri", [Plain("WEBSEARCH_TTS_WS_URI")]),
     Member("socket", [Plain("WEBSEARCH_TTS_WS_SOCKET")]), Member("host_port", [TtsHost, TtsPort])]

  /** Highest layer whose raw mapping sets the key, or -1. */
  function HighestSetting(layers: seq<Layer>, k: Key): int {
    if layers == [] then -1
    else
      var rest := HighestSetting(layers[..|layers| - 1], k);
      var last := layers[|layers| - 1];
      if FamilyKeySet(Get(last.values, k)) then Max(rest, last.number) else rest
  }

  /** The computed layer of a key: -1 when the merged value was erased or never set. */
  function FamilyLayer(layers: seq<Layer>, k: Key): int {
    if FamilyKeySet(Get(Load(layers).values, k)) then HighestSetting(layers, k) else -1
  }

  predicate Complete(layers: seq<Layer>, m: Member) {
    forall i :: 0 <= i < |m.keys| ==> FamilyKeySet(Get(Load(layers).values, m.keys[i]))
  }

  function MaxLayer(layers: seq<Layer>, keys: seq<Key>): int {
    if keys == [] then -1 else Max(MaxLayer(layers, keys[..|keys| - 1]), FamilyLayer(layers, keys[|keys| - 1]))
  }

  function MemberLayer(layers: seq<Layer>, m: Member): int {
    MaxLayer(layers, m.keys)
  }

  /** Index of the first complete member with the highest layer. */
  function Winner(layers: seq<Layer>, members: seq<Member>): (w: Option<nat>)
    ensures w.Some? ==> w.value < |members|
  {
    if members == [] then None
    else
      var best := Winner(layers, members[..|members| - 1]);
      var last := members[|members| - 1];
      if !Complete(layers, last) then best
      else if best.None? || MemberLayer(layers, members[best.value]) < MemberLayer(layers, last) then Some(|members| - 1)
      else best
  }

  function WinnerLayer(layers: seq<Layer>, members: seq<Member>): int {
    var w := Winner(layers, members);
    if w.None? then -1 else MemberLayer(layers, members[w.value])
  }

  // ---- the layer of a key -----------------------------------------------------------------

  /** Position of the highest layer that mentions the key at all, or -1. */
  function SupplierAt(layers: seq<Layer>, k: Key): (at: int)
    ensures -1 <= at < |layers|
    ensures 0 <= at ==> k in layers[at].values
  {
    if layers == [] then -1
    else if k in layers[|layers| - 1].values then |layers| - 1
    else SupplierAt(layers[..|layers| - 1], k)
  }

  lemma {:induction false} MergedPlainValue(layers: seq<Layer>, k: Key)
    requires k.Plain?
    ensures Get(ApplyAll(layers).values, k) ==
            if 0 <= SupplierAt(layers, k) then Some(layers[SupplierAt(layers, k)].values[k]) else None
  {
    if layers != [] {
      MergedPlainValue(layers[..|layers| - 1], k);
    }
  }

  lemma {:induction false} HighestIsSupplier(layers: seq<Layer>, k: Key)
    requires Ascending(layers)
    ensures HighestSetting(layers, k) <= if layers == [] then -1 else layers[|layers| - 1].number
    ensures 0 <= SupplierAt(layers, k) && FamilyKeySet(Get(layers[SupplierAt(layers, k)].values, k)) ==>
              HighestSetting(layers, k) == layers[SupplierAt(layers, k)].number
  {
    if layers != [] {
      HighestIsSupplier(layers[..|layers| - 1], k);
    }
  }

  /** The provenance theorem for families: the layer computed for a set key is the layer that supplied its
      merged value; an unset or erased key reports no layer. */
  lemma {:induction false} FamilyLayerTheorem(layers: seq<Layer>, k: Key)
    requires Ascending(layers) && k.Plain?
    ensures
      var at := SupplierAt(layers, k);
      && Get(Load(layers).values, k) == (if 0 <= at then Some(layers[at].values[k]) else None)
      && (FamilyKeySet(Get(Load(layers).values, k)) ==> 0 <= at && FamilyLayer(layers, k) == layers[at].number)
      && (!FamilyKeySet(Get(Load(layers).values, k)) ==> FamilyLayer(layers, k) == -1)
  {
    MergedPlainValue(layers, k);
    HighestIsSupplier(layers, k);
  }

  // ---- the winner -------------------------------------------------------------------------

  /** The winner theorem: none wins exactly when no spelling is complete; otherwise the winner is complete, no
      complete spelling has a higher layer, and none declared before it has the same. */
  lemma {:induction false} WinnerTheorem(layers: seq<Layer>, members: seq<Member>)
    ensures Winner(layers, members).None? <==> forall i :: 0 <= i < |members| ==> !Complete(layers, members[i])
    ensures
      var w := Winner(layers, members);
      w.Some? ==>
        && Complete(layers, members[w.value])
        && (forall i :: 0 <= i < |members| && Complete(layers, members[i]) ==>
              MemberLayer(layers, members[i]) <= MemberLayer(layers, members[w.value]))
        && (forall i :: 0 <= i < w.value && Complete(layers, members[i]) ==>
              MemberLayer(layers, members[i]) < MemberLayer(layers, members[w.value]))
  {
    if members != [] {
      var front, last := members[..|members| - 1], members[|members| - 1];
      WinnerTheorem(layers, front);
      assert members == front + [last];
      assert forall i :: 0 <= i < |front| ==> members[i] == front[i];
    }
  }

  // ---- the top layer ----------------------------------------------------------------------

  /** Every key of the spelling is set by the one layer. */
  predicate CompleteIn(top: Layer, m: Member) {
    forall i :: 0 <= i < |m.keys| ==> FamilyKeySet(Get(top.values, m.keys[i]))
  }

  /** Plain keys, at least one per spelling, and only the last spelling may take several. */
  predicate FamilyShape(members: seq<Member>) {
    && (forall i :: 0 <= i < |members| ==> |members[i].keys| >= 1)
    && (forall i :: 0 <= i < |members| - 1 ==> |members[i].keys| == 1)
    && (forall i, j :: 0 <= i < |members| && 0 <= j < |members[i].keys| ==> members[i].keys[j].Plain?)
  }

  lemma {:induction false} ShapesHold()
    ensures FamilyShape(SttMembers) && FamilyShape(TtsMembers)
  {
  }

  function FirstCompleteIn(top: Layer, members: seq<Member>): Option<nat> {
    if members == [] then None
    else
      var before := FirstCompleteIn(top, members[..|members| - 1]);
      if before.Some? then before
      else if CompleteIn(top, members[|members| - 1]) then Some(|members| - 1)
      else None
  }

  lemma {:induction false} FirstCompleteMeaning(top: Layer, members: seq<Member>)
    ensures
      var f := FirstCompleteIn(top, members);
      && (f.None? ==> forall i :: 0 <= i < |members| ==> !CompleteIn(top, members[i]))
      && (f.Some? ==> f.value < |members| && CompleteIn(top, members[f.value]) &&
                      forall i :: 0 <= i < f.value ==> !CompleteIn(top, members[i]))
  {
    if members != [] {
      FirstCompleteMeaning(top, members[..|members| - 1]);
    }
  }

  /** A key set in the top layer is merged from it and carries its number; no key carries a higher one, and only
      such a key carries that one. */
  lemma {:induction false} TopLayerKey(layers: seq<Layer>, k: Key)
    requires layers != [] && Ascending(layers) && k.Plain?
    ensures
      var top := layers[|layers| - 1];
      && FamilyLayer(layers, k) <= top.number
      && (FamilyKeySet(Get(top.values, k)) <==> FamilyLayer(layers, k) == top.number)
      && (k in top.values ==> Get(Load(layers).values, k) == Get(top.values, k))
  {
    FamilyLayerTheorem(layers, k);
    HighestIsSupplier(layers, k);
  }

  lemma {:induction false} MaxLayerBound(layers: seq<Layer>, keys: seq<Key>)
    requires layers != [] && Ascending(layers) && forall i :: 0 <= i < |keys| ==> keys[i].Plain?
    ensures MaxLayer(layers, keys) <= layers[|layers| - 1].number
    ensures forall i :: 0 <= i < |keys| ==> FamilyLayer(layers, keys[i]) <= MaxLayer(layers, keys)
  {
    if keys != [] {
      MaxLayerBound(layers, keys[..|keys| - 1]);
      TopLayerKey(layers, keys[|keys| - 1]);
    }
  }

  /** A spelling the top layer completes is complete and carries the top layer's number; a one-key spelling
      carries it only then. */
  lemma {:induction false} TopLayerMember(layers: seq<Layer>, m: Member)
    requires layers != [] && Ascending(layers) && |m.keys| >= 1
    requires forall i :: 0 <= i < |m.keys| ==> m.keys[i].Plain?
    ensures MemberLayer(layers, m) <= layers[|layers| - 1].number
    ensures CompleteIn(layers[|layers| - 1], m) ==> Complete(layers, m) && MemberLayer(layers, m) == layers[|layers| - 1].number
    ensures |m.keys| == 1 && MemberLayer(layers, m) == layers[|layers| - 1].number ==> CompleteIn(layers[|layers| - 1], m)
  {
    MaxLayerBound(layers, m.keys);
    forall i | 0 <= i < |m.keys| ensures FamilyKeySet(Get(layers[|layers| - 1].values, m.keys[i])) ==>
        FamilyLayer(layers, m.keys[i]) == layers[|layers| - 1].number && FamilyKeySet(Get(Load(layers).values, m.keys[i]))
    {
      TopLayerKey(layers, m.keys[i]);
    }
    TopLayerKey(layers, m.keys[0]);
    if |m.keys| == 1 {
      assert m.keys[..0] == [];
      assert MaxLayer(layers, m.keys[..0]) == -1;
    }
  }

  /** The top-layer theorem: when the top layer names a complete spelling, the winner is the first one it
      completes, and every value the winner is built from comes from that layer, whatever lies below. */
  lemma {:induction false} TopLayerTheorem(layers: seq<Layer>, members: seq<Member>, c: nat)
    requires layers != [] && Ascending(layers) && FamilyShape(members)
    requires c < |members| && CompleteIn(layers[|layers| - 1], members[c])
    ensures
      var top := layers[|layers| - 1];
      var w := Winner(layers, members);
      && w.Some? && w == FirstCompleteIn(top, members)
      && (forall i :: 0 <= i < |members[w.value].keys| ==>
            Get(Load(layers).values, members[w.value].keys[i]) == Get(top.values, members[w.value].keys[i]))
  {
    var top := layers[|layers| - 1];
    WinnerTheorem(layers, members);
    FirstCompleteMeaning(top, members);
    var f, w := FirstCompleteIn(top, members).value, Winner(layers, members);
    TopLayerMember(layers, members[f]);
    assert w.Some?;
    TopLayerMember(layers, members[w.value]);
    forall i | 0 <= i < |members[f].keys| ensures Get(Load(layers).values, members[f].keys[i]) == Get(top.values, members[f].keys[i]) {
      TopLayerKey(layers, members[f].keys[i]);
    }
  }

  // ---- half a pair ------------------------------------------------------------------------

  /** Exactly one of host and port is set, above the layer the winner won at. */
  predicate HalfPairRefused(layers: seq<Layer>) {
    && FamilyKeySet(Get(Load(layers).values, TtsHost)) != FamilyKeySet(Get(Load(layers).values, TtsPort))
    && Max(FamilyLayer(layers, TtsHost), FamilyLayer(layers, TtsPort)) > WinnerLayer(layers, TtsMembers)
  }

  /** The half that is set, when exactly one is. */
  function Half(layers: seq<Layer>): Key {
    if FamilyKeySet(Get(Load(layers).values, TtsHost)) then TtsHost else TtsPort
  }

  /** The half-pair theorem: half a pair is ignored exactly when some complete spelling was supplied at the
      half's own layer or above. */
  lemma {:induction false} HalfPairTheorem(layers: seq<Layer>)
    requires Ascending(layers)
    requires FamilyKeySet(Get(Load(layers).values, TtsHost)) != FamilyKeySet(Get(Load(layers).values, TtsPort))
    ensures
      var at := SupplierAt(layers, Half(layers));
      && 0 <= at
      && (!HalfPairRefused(layers) <==>
            exists i :: 0 <= i < |TtsMembers| && Complete(layers, TtsMembers[i]) &&
                        layers[at].number <= MemberLayer(layers, TtsMembers[i]))
  {
    FamilyLayerTheorem(layers, TtsHost);
    FamilyLayerTheorem(layers, TtsPort);
    WinnerTheorem(layers, TtsMembers);
  }
}
