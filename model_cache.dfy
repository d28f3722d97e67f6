/** The single-slot Whisper model cache: the `whisper_model` global and
    `load_whisper_model` of main.py. */
module ModelCache {
  import opened Wrappers

  /** A resident Whisper network: `weights` stands for the object `whisper.load_model`
      returned, `name` is the size name the cache tagged it with. */
  datatype Model = Model(weights: nat, name: string)

  /** What one call of `whisper.load_model(name)` does: return a network, or raise. */
  datatype LoadResult = Loaded(weights: nat) | LoadRaised(message: string)

  /** The effect of one `load_whisper_model` call: the model it returns, the slot it
      leaves behind, and whether it called the loader. */
  datatype CacheStep = CacheStep(model: Option<Model>, slot: Option<Model>, attempted: bool)

  /** The slot holds a network of size `name`. */
  predicate Holds(slot: Option<Model>, name: string) {
    slot.Some? && slot.value.name == name
  }

  /** `load_whisper_model(name)` against the slot `slot`, where `load` is what the loader
      would do if called. The loader runs exactly when the slot does not already hold
      `name`; a returned model always has the requested name and is what the slot then
      holds; a failed load returns nothing and leaves the slot as it was. */
  function Fetch(slot: Option<Model>, name: string, load: LoadResult): (step: CacheStep)
    ensures step.attempted <==> !Holds(slot, name)
    ensures !step.attempted ==> step.model == slot && step.slot == slot
    ensures step.model.Some? ==> step.model.value.name == name && step.slot == step.model
    ensures step.attempted && load.Loaded? ==> step.model == Some(Model(load.weights, name))
    ensures step.model.None? <==> step.attempted && load.LoadRaised?
    ensures step.model.None? ==> step.slot == slot
  {
    if !Holds(slot, name) then
      match load
      case Loaded(w) => CacheStep(Some(Model(w, name)), Some(Model(w, name)), true)
      case LoadRaised(_) => CacheStep(None, slot, true)
    else
      CacheStep(slot, slot, false)
  }

  /** The process-wide cache. */
  class WhisperCache {
    /** The global `whisper_model`: no network, or exactly one. */
    var slot: Option<Model>
    /** The size names the loader has been called with, oldest first. */
    ghost var loads: seq<string>

    constructor ()
      ensures slot == None && loads == []
    {
      slot := None;
      loads := [];
    }

    /** `load_whisper_model(name)`, with `load` standing for the loader's behaviour. */
    method Load(name: string, load: LoadResult) returns (model: Option<Model>)
      modifies this
      ensures model.Some? ==> model.value.name == name && slot == model
      ensures model.None? ==> slot == old(slot)
      ensures !Holds(old(slot), name) && load.Loaded? ==> model == Some(Model(load.weights, name))
      ensures Holds(old(slot), name) ==> model == old(slot) && loads == old(loads)
      ensures !Holds(old(slot), name) ==> loads == old(loads) + [name]
      ensures model == Fetch(old(slot), name, load).model
      ensures slot == Fetch(old(slot), name, load).slot
    {
      if slot.None? || slot.value.name != name {
        loads := loads + [name];
        match load {
          case Loaded(w) =>
            slot := Some(Model(w, name));
          case LoadRaised(_) =>
            return None;
        }
      }
      model := slot;
    }
  }

  /** A sequence of `load_whisper_model` calls, each a size name and what the loader
      would do for it, served from `slot`: the final slot and the names actually loaded. */
  function Replay(slot: Option<Model>, calls: seq<(string, LoadResult)>): (Option<Model>, seq<string>)
    decreases |calls|
  {
    if calls == [] then (slot, [])
    else
      var step := Fetch(slot, calls[0].0, calls[0].1);
      var rest := Replay(step.slot, calls[1..]);
      (rest.0, (if step.attempted then [calls[0].0] else []) + rest.1)
  }

  /** The name of the network a slot holds. */
  function SlotName(slot: Option<Model>): Option<string> {
    if slot.Some? then Some(slot.value.name) else None
  }

  /** How many calls ask for a different size from the one before them (the first call
      compared with `current`). */
  function NameChanges(current: Option<string>, calls: seq<(string, LoadResult)>): nat
    decreases |calls|
  {
    if calls == [] then 0
    else (if current == Some(calls[0].0) then 0 else 1) + NameChanges(Some(calls[0].0), calls[1..])
  }

  predicate AllLoad(calls: seq<(string, LoadResult)>) {
    forall i :: 0 <= i < |calls| ==> calls[i].1.Loaded?
  }

  /** When every load succeeds, the loader runs once per change of requested size and no
      more: repeated requests for the resident size never reload it. */
  lemma {:induction false} LoadsFollowNameChanges(slot: Option<Model>, calls: seq<(string, LoadResult)>)
    requires AllLoad(calls)
    ensures |Replay(slot, calls).1| == NameChanges(SlotName(slot), calls)
    decreases |calls|
  {
    if calls != [] {
      var step := Fetch(slot, calls[0].0, calls[0].1);
      assert calls[0].1.Loaded?;
      assert SlotName(step.slot) == Some(calls[0].0);
      assert AllLoad(calls[1..]) by {
        forall i | 0 <= i < |calls| - 1 ensures calls[1..][i].1.Loaded? {
          assert calls[1..][i] == calls[i + 1];
        }
      }
      LoadsFollowNameChanges(step.slot, calls[1..]);
    }
  }

  /** Once a size is resident, any number of further requests for it load nothing and
      keep the same network. */
  lemma {:induction false} ResidentNameNeverReloads(m: Model, calls: seq<(string, LoadResult)>)
    requires forall i :: 0 <= i < |calls| ==> calls[i].0 == m.name
    ensures Replay(Some(m), calls) == (Some(m), [])
    decreases |calls|
  {
    if calls != [] {
      assert forall i :: 0 <= i < |calls| - 1 ==> calls[1..][i].0 == m.name by {
        forall i | 0 <= i < |calls| - 1 ensures calls[1..][i].0 == m.name {
          assert calls[1..][i] == calls[i + 1];
        }
      }
      ResidentNameNeverReloads(m, calls[1..]);
      assert calls[0].0 == m.name;
      var step := Fetch(Some(m), calls[0].0, calls[0].1);
      assert !step.attempted && step.slot == Some(m);
      assert Replay(Some(m), calls).1 == [] + Replay(Some(m), calls[1..]).1;
    }
  }

  /** The cache keeps a single slot: after a successful last request the slot holds that
      request's network and only it, whatever came before. */
  lemma {:induction false} LastSuccessfulRequestWins(slot: Option<Model>, calls: seq<(string, LoadResult)>)
    requires calls != [] && calls[|calls| - 1].1.Loaded?
    ensures SlotName(Replay(slot, calls).0) == Some(calls[|calls| - 1].0)
    decreases |calls|
  {
    var step := Fetch(slot, calls[0].0, calls[0].1);
    if |calls| > 1 {
      assert calls[1..][|calls[1..]| - 1] == calls[|calls| - 1];
      LastSuccessfulRequestWins(step.slot, calls[1..]);
    }
  }

  /** Failed loads never disturb the slot: a run of requests whose loads all raise leaves
      the slot exactly as it was. */
  lemma {:induction false} FailedLoadsKeepSlot(slot: Option<Model>, calls: seq<(string, LoadResult)>)
    requires forall i :: 0 <= i < |calls| ==> calls[i].1.LoadRaised?
    ensures Replay(slot, calls).0 == slot
    decreases |calls|
  {
    if calls != [] {
      assert forall i :: 0 <= i < |calls| - 1 ==> calls[1..][i].1.LoadRaised? by {
        forall i | 0 <= i < |calls| - 1 ensures calls[1..][i].1.LoadRaised? {
          assert calls[1..][i] == calls[i + 1];
        }
      }
      FailedLoadsKeepSlot(slot, calls[1..]);
    }
  }

  /** Requesting "base" and then "small" loads each once, and "small" replaces "base". */
  lemma BaseThenSmall(w1: nat, w2: nat)
    ensures Replay(None, [("base", Loaded(w1)), ("small", Loaded(w2))])
         == (Some(Model(w2, "small")), ["base", "small"])
  {
    var calls := [("base", Loaded(w1)), ("small", Loaded(w2))];
    var first := Fetch(None, "base", Loaded(w1));
    assert first.slot == Some(Model(w1, "base")) && first.attempted;
    assert "base" != "small" by { assert "base"[0] != "small"[0]; }
    var second := Fetch(first.slot, "small", Loaded(w2));
    assert second.slot == Some(Model(w2, "small")) && second.attempted;
    var rest := calls[1..];
    assert rest == [("small", Loaded(w2))] && rest[1..] == [];
    assert Fetch(first.slot, rest[0].0, rest[0].1) == second;
    assert Replay(second.slot, rest[1..]) == (second.slot, []);
    assert [rest[0].0] + [] == ["small"];
    assert Replay(first.slot, rest) == (second.slot, ["small"]);
    assert Fetch(None, calls[0].0, calls[0].1) == first;
    assert [calls[0].0] + ["small"] == ["base", "small"];
  }
}
