/** The config options a backend's catalog offers, with the reasoning-effort axis derived from its models. */
module CatalogOptions {
  import opened Common

  datatype ModelInfo = ModelInfo(id: string, efforts: seq<string>)

  /** The selections the runtime holds when a catalog arrives. */
  datatype Picks = Picks(mode: Option<string>, model: Option<string>, effort: Option<string>)

  datatype ConfigOption = ConfigOption(id: string, current: Option<string>, values: seq<string>)

  /** The first model of that id. */
  function FindModel(models: seq<ModelInfo>, id: string): (r: Option<ModelInfo>)
    ensures r.Some? ==> r.value in models && r.value.id == id
    ensures r.None? <==> forall m :: m in models ==> m.id != id
  {
    if models == [] then None
    else if models[0].id == id then Some(models[0])
    else FindModel(models[1..], id)
  }

  /** What is in `xs` and not in `seen`, each once, in order of appearance, after `seen`. */
  function Merge(seen: seq<string>, xs: seq<string>): seq<string> {
    if xs == [] then seen
    else
      var before := Merge(seen, xs[..|xs| - 1]);
      if xs[|xs| - 1] in before then before else before + [xs[|xs| - 1]]
  }

  function Union(models: seq<ModelInfo>): seq<string> {
    if models == [] then [] else Merge(Union(models[..|models| - 1]), models[|models| - 1].efforts)
  }

  /** The efforts of the current model if it is known, else of all models together. */
  function Efforts(models: seq<ModelInfo>, current: Option<string>): seq<string> {
    var known := if current.Some? then FindModel(models, current.value) else None;
    if known.Some? then known.value.efforts else Union(models)
  }

  lemma {:induction false} MergeExactly(seen: seq<string>, xs: seq<string>)
    requires NoDuplicates(seen)
    ensures NoDuplicates(Merge(seen, xs)) && forall e :: e in Merge(seen, xs) <==> e in seen || e in xs
  {
    if xs != [] {
      MergeExactly(seen, xs[..|xs| - 1]);
      assert xs == xs[..|xs| - 1] + [xs[|xs| - 1]];
    }
  }

  /** With no current model to go by, every effort some model advertises is offered, once. */
  lemma {:induction false} UnionExactly(models: seq<ModelInfo>)
    ensures NoDuplicates(Union(models))
    ensures forall e :: e in Union(models) <==> exists m :: m in models && e in m.efforts
  {
    if models != [] {
      var rest, last := models[..|models| - 1], models[|models| - 1];
      UnionExactly(rest);
      MergeExactly(Union(rest), last.efforts);
      assert models == rest + [last];
    }
  }

  method CurrentEfforts(models: seq<ModelInfo>, current: Option<string>) returns (r: seq<string>)
    ensures r == Efforts(models, current)
  {
    if current.Some? {
      var known := FindModel(models, current.value);
      if known.Some? {
        return known.value.efforts;
      }
    }
    r := [];
    for i := 0 to |models|
      invariant r == Union(models[..i])
    {
      ghost var before := r;
      assert models[..i + 1][..i] == models[..i];
      var efforts := models[i].efforts;
      for j := 0 to |efforts|
        invariant r == Merge(before, efforts[..j])
      {
        assert efforts[..j + 1][..j] == efforts[..j];
        if efforts[j] !in r {
          r := r + [efforts[j]];
        }
      }
      assert efforts[..|efforts|] == efforts;
    }
    assert models[..|models|] == models;
  }

  function Offer(id: string, current: Option<string>, values: seq<string>): seq<ConfigOption> {
    if values == [] then [] else [ConfigOption(id, current, values)]
  }

  function ModelIds(models: seq<ModelInfo>): (ids: seq<string>) {
    seq(|models|, i requires 0 <= i < |models| => models[i].id)
  }

  /** Mode, model and reasoning effort, each only if there is something to choose from. */
  function Options(models: seq<ModelInfo>, modes: seq<string>, picks: Picks): seq<ConfigOption> {
    Offer("mode", picks.mode, modes)
    + Offer("model", picks.model, ModelIds(models))
    + Offer("reasoning_effort", picks.effort, Efforts(models, picks.model))
  }

  /** There is something to send exactly if there are modes or models: efforts come with models only. */
  lemma OptionsExactly(models: seq<ModelInfo>, modes: seq<string>, picks: Picks)
    ensures Options(models, modes, picks) == [] <==> modes == [] && models == []
  {
  }

  lemma {:induction false} FindsFirst(models: seq<ModelInfo>, i: nat)
    requires i < |models| && forall j :: 0 <= j < i ==> models[j].id != models[i].id
    ensures FindModel(models, models[i].id) == Some(models[i])
  {
    if i > 0 {
      FindsFirst(models[1..], i - 1);
    }
  }

  /** The efforts of the current model win if the catalog has it; of two models with its id, the first one's. */
  lemma CurrentModelWins(models: seq<ModelInfo>, i: nat)
    requires i < |models| && forall j :: 0 <= j < i ==> models[j].id != models[i].id
    ensures Efforts(models, Some(models[i].id)) == models[i].efforts
  {
    FindsFirst(models, i);
  }

  /** Without a known current model all efforts are offered, each once. */
  lemma UnknownModelOffersAll(models: seq<ModelInfo>, current: Option<string>)
    requires current.Some? ==> forall m :: m in models ==> m.id != current.value
    ensures NoDuplicates(Efforts(models, current))
    ensures forall e :: e in Efforts(models, current) <==> exists m :: m in models && e in m.efforts
  {
    UnionExactly(models);
  }

  /** Which options are offered, with which selection and which values. */
  lemma OfferedExactly(models: seq<ModelInfo>, modes: seq<string>, picks: Picks, option: ConfigOption)
    ensures option in Options(models, modes, picks)
            <==> && option.values != []
                 && (|| (option.id == "mode" && option.current == picks.mode && option.values == modes)
                     || (option.id == "model" && option.current == picks.model && |option.values| == |models|
                         && forall i :: 0 <= i < |models| ==> option.values[i] == models[i].id)
                     || (option.id == "reasoning_effort" && option.current == picks.effort
                         && option.values == Efforts(models, picks.model)))
  {
    assert |option.values| == |models| && (forall i :: 0 <= i < |models| ==> option.values[i] == models[i].id) ==>
        option.values == ModelIds(models);
  }
}
