/** The baseline fake-news classifier: the toy training set, training that
    creates it when no data file exists, the load-once model cache and the
    threshold rule that turns a fake probability into a label. The fitted
    vectorizer and classifier are an opaque value of type `M`. */
module BaselineClassifier {
  import opened Common

  /** The threshold `predict` uses when the caller gives none. */
  const DefaultThreshold: real := 0.5

  /** A training row: label 0 is credible, label 1 is fake or sensational. */
  datatype LabeledRow = LabeledRow(text: string, fakeLabel: int)

  function CountLabel(rows: seq<LabeledRow>, fakeLabel: int): nat {
    if rows == [] then 0 else (if rows[0].fakeLabel == fakeLabel then 1 else 0) + CountLabel(rows[1..], fakeLabel)
  }

  /** The rows `make_tiny_dataset` writes: four rows, both classes present
      twice each, every label 0 or 1. */
  function TinyDataset(): (rows: seq<LabeledRow>)
    ensures |rows| == 4
    ensures CountLabel(rows, 0) == 2 && CountLabel(rows, 1) == 2
    ensures forall r :: r in rows ==> r.fakeLabel == 0 || r.fakeLabel == 1
  {
    var rows := [
      LabeledRow("The government confirmed new policy today", 0),
      LabeledRow("Celebrity endorses miracle cure \U{2014} click to buy!", 1),
      LabeledRow("Research shows improved results in trials", 0),
      LabeledRow("Shocking: vaccine causes instant harm!", 1)
    ];
    assert rows[1..][1..][1..][1..] == [];
    rows
  }

  /** The rows `train` fits on, given the data file as it was before the
      call: the file's rows when it exists, the toy dataset otherwise. */
  function TrainingRows(dataFile: Option<seq<LabeledRow>>): (rows: seq<LabeledRow>)
    ensures dataFile.Some? ==> rows == dataFile.value
    ensures dataFile.None? ==> rows == TinyDataset()
  {
    if dataFile.Some? then dataFile.value else TinyDataset()
  }

  /** Training without a data file falls back to the toy dataset, which
      holds both classes; an existing data file is used as it is. */
  lemma TrainingRowsFallback(dataFile: Option<seq<LabeledRow>>)
    ensures dataFile.Some? ==> TrainingRows(dataFile) == dataFile.value
    ensures dataFile.None? ==> CountLabel(TrainingRows(dataFile), 0) > 0 && CountLabel(TrainingRows(dataFile), 1) > 0
  {
  }

  /** The data file and the model file the module reads and writes. */
  class Workspace<M> {
    var dataFile: Option<seq<LabeledRow>>
    var modelFile: Option<M>

    constructor (dataFile: Option<seq<LabeledRow>>, modelFile: Option<M>)
      ensures this.dataFile == dataFile && this.modelFile == modelFile
    {
      this.dataFile := dataFile;
      this.modelFile := modelFile;
    }

    /** `make_tiny_dataset`: (over)writes the data file with the toy rows. */
    method MakeTinyDataset()
      modifies this
      ensures dataFile == Some(TinyDataset())
      ensures modelFile == old(modelFile)
    {
      dataFile := Some(TinyDataset());
    }

    /** `train`: creates the toy dataset only when the data file is missing,
        fits `fit` on the data file's rows and saves the result as the
        model file. */
    method Train(fit: seq<LabeledRow> -> M)
      modifies this
      ensures dataFile == Some(TrainingRows(old(dataFile)))
      ensures old(dataFile).Some? ==> dataFile == old(dataFile)
      ensures modelFile == Some(fit(TrainingRows(old(dataFile))))
    {
      if dataFile.None? {
        MakeTinyDataset();
      }
      var rows := dataFile.value;
      modelFile := Some(fit(rows));
    }
  }

  datatype LoadError = ModelNotFound

  /** One call of `_load_model_once` from cache state `cache` while the model
      file is `file`: the new cache state and what the call returns. */
  function LoadStep<M>(cache: Option<M>, file: Option<M>): (step: (Option<M>, Result<M, LoadError>))
    ensures cache.Some? ==> step == (cache, Success(cache.value))
    ensures step.1.Failure? <==> cache.None? && file.None?
    ensures step.1.Failure? ==> step.0 == None
    ensures step.1.Success? ==> step.0 == Some(step.1.value)
    ensures cache.None? && file.Some? ==> step.1 == Success(file.value)
  {
    if cache.Some? then (cache, Success(cache.value))
    else if file.None? then (None, Failure(ModelNotFound))
    else (file, Success(file.value))
  }

  /** The results of successive calls, the i-th made while the model file is
      `files[i]`. */
  function Replay<M>(cache: Option<M>, files: seq<Option<M>>): seq<Result<M, LoadError>>
    decreases |files|
  {
    if files == [] then []
    else
      var step := LoadStep(cache, files[0]);
      [step.1] + Replay(step.0, files[1..])
  }

  /** How many of those calls load the model file from disk. */
  function DiskLoads<M>(cache: Option<M>, files: seq<Option<M>>): nat
    decreases |files|
  {
    if files == [] then 0
    else
      var step := LoadStep(cache, files[0]);
      (if cache.None? && files[0].Some? then 1 else 0) + DiskLoads(step.0, files[1..])
  }

  /** The model is loaded from disk at most once over any sequence of calls,
      and never once the cache is filled. */
  lemma {:induction false} LoadsAtMostOnce<M>(cache: Option<M>, files: seq<Option<M>>)
    ensures DiskLoads(cache, files) <= (if cache.None? then 1 else 0)
    decreases |files|
  {
    if files != [] {
      LoadsAtMostOnce(LoadStep(cache, files[0]).0, files[1..]);
    }
  }

  /** With a filled cache every call returns the cached model, whatever the
      model file holds or whether it exists. */
  lemma {:induction false} CachedModelReturned<M>(m: M, files: seq<Option<M>>)
    ensures |Replay(Some(m), files)| == |files|
    ensures forall i :: 0 <= i < |files| ==> Replay(Some(m), files)[i] == Success(m)
    decreases |files|
  {
    if files != [] {
      CachedModelReturned(m, files[1..]);
    }
  }

  /** Over any sequence of calls, every call that succeeds returns the same
      model. */
  lemma {:induction false} SuccessesAgree<M>(cache: Option<M>, files: seq<Option<M>>)
    ensures |Replay(cache, files)| == |files|
    ensures forall i, j :: (0 <= i < |files| && 0 <= j < |files|
                            && Replay(cache, files)[i].Success? && Replay(cache, files)[j].Success?
                            ==> Replay(cache, files)[i].value == Replay(cache, files)[j].value)
    decreases |files|
  {
    if files != [] {
      var step := LoadStep(cache, files[0]);
      var rest := Replay(step.0, files[1..]);
      if step.0.Some? {
        CachedModelReturned(step.0.value, files[1..]);
      } else {
        SuccessesAgree(step.0, files[1..]);
        assert Replay(cache, files) == [step.1] + rest;
      }
    }
  }

  /** The label and probability `predict` returns. */
  datatype Prediction = Prediction(fakeLabel: int, fakeProbability: real)

  /** The decision rule of `predict`: the label is 1 exactly when the fake
      probability reaches the threshold (equality included), 0 otherwise,
      and the probability is returned unchanged. */
  function Decide(fakeProbability: real, threshold: real): (p: Prediction)
    ensures p.fakeLabel == 0 || p.fakeLabel == 1
    ensures p.fakeLabel == 1 <==> fakeProbability >= threshold
    ensures p.fakeProbability == fakeProbability
  {
    Prediction(if fakeProbability >= threshold then 1 else 0, fakeProbability)
  }

  /** A higher fake probability never gives a lower label, and a higher
      threshold never gives a higher one. */
  lemma DecideMonotone(p: real, q: real, s: real, t: real)
    requires p <= q && s <= t
    ensures Decide(p, t).fakeLabel <= Decide(q, t).fakeLabel
    ensures Decide(p, t).fakeLabel <= Decide(p, s).fakeLabel
  {
  }

  /** A classifier's class probabilities: both in [0, 1], summing to 1. */
  predicate IsDistribution(probs: (real, real)) {
    0.0 <= probs.0 && 0.0 <= probs.1 && probs.0 + probs.1 == 1.0
  }

  /** The load-once cache of `_model_cache`. `loads` counts reads of the
      model file; the invariant keeps it at one at most. */
  class ModelCache<M> {
    var cache: Option<M>
    ghost var loads: nat

    ghost predicate Valid()
      reads this
    {
      loads == if cache.Some? then 1 else 0
    }

    constructor ()
      ensures Valid() && cache == None
    {
      cache := None;
      loads := 0;
    }

    /** `_load_model_once`: loads the model file into the empty cache, or
        raises if it is missing; a filled cache is returned as it is. */
    method LoadOnce(disk: Workspace<M>) returns (r: Result<M, LoadError>)
      requires Valid()
      modifies this
      ensures Valid()
      ensures (cache, r) == LoadStep(old(cache), disk.modelFile)
      ensures loads == old(loads) + (if old(cache).None? && disk.modelFile.Some? then 1 else 0)
    {
      if cache.None? {
        if disk.modelFile.None? {
          return Failure(ModelNotFound);
        }
        cache := disk.modelFile;
        loads := loads + 1;
      }
      r := Success(cache.value);
    }

    /** `predict`: loads the model once, takes the class-1 entry of the
        classifier's probability pair for `text` and applies the threshold. */
    method Predict(text: string, disk: Workspace<M>, proba: (M, string) -> (real, real),
                   threshold: real := DefaultThreshold)
      returns (r: Result<Prediction, LoadError>)
      requires Valid()
      modifies this
      ensures Valid()
      ensures cache == LoadStep(old(cache), disk.modelFile).0
      ensures r.Failure? <==> old(cache).None? && disk.modelFile.None?
      ensures r.Failure? ==> r.error == ModelNotFound
      ensures r.Success? ==> cache.Some? && r.value == Decide(proba(cache.value, text).1, threshold)
      ensures r.Success? && IsDistribution(proba(cache.value, text)) ==>
        0.0 <= r.value.fakeProbability <= 1.0
    {
      var loaded := LoadOnce(disk);
      match loaded {
        case Failure(e) =>
          r := Failure(e);
        case Success(model) =>
          var probs := proba(model, text);
          r := Success(Decide(probs.1, threshold));
      }
    }
  }
}
