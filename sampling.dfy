/** `generate_examples`: draw `num_examples // 100` batches of 100 images per
    active class from the generator, collect them per class, and optionally
    save a grid of each of the first classes. */
module Sampling {
  import opened Python
  import opened Gan
  import opened Grid

  /** How many batches `range(num_examples // 100)` draws per class: floor
      division, and none at all below 100 examples (negative counts
      included). */
  function Rounds(numExamples: int): (n: nat)
    ensures numExamples < 100 ==> n == 0
    ensures numExamples >= 100 ==> 100 * n <= numExamples < 100 * (n + 1)
  {
    if numExamples < 100 then 0 else numExamples / 100
  }

  /** Whether `targets = torch.zeros(100, total_classes, 1, 1)` followed by
      `targets[:, klass] = 1` succeeds: the size is not negative and the
      index lies within it, negative indices counting from the end. */
  predicate Conditionable(totalClasses: int, klass: int)
  {
    totalClasses >= 0 && -totalClasses <= klass < totalClasses
  }

  /** The column `targets[:, klass]` designates. */
  function Column(totalClasses: int, klass: int): (c: int)
    requires Conditionable(totalClasses, klass)
    ensures 0 <= c < totalClasses
  {
    if klass < 0 then klass + totalClasses else klass
  }

  /** The exception building the targets raises for a class they cannot
      hold: RuntimeError for a negative number of classes, IndexError for a
      class index outside the row. */
  function TargetsError(totalClasses: int, klass: int): (e: PyError)
    requires !Conditionable(totalClasses, klass)
    ensures totalClasses < 0 <==> e == RuntimeError
    ensures totalClasses >= 0 <==> e == IndexError
  {
    if totalClasses < 0 then RuntimeError else IndexError
  }

  /** The conditioning targets of one batch: 100 rows of `total_classes`
      entries (the trailing 1x1 dimensions dropped). */
  function OneHot(totalClasses: int, klass: int): (r: Result<seq<seq<int>>>)
    ensures r.Success? <==> Conditionable(totalClasses, klass)
    ensures r.Failure? ==> r.error == TargetsError(totalClasses, klass)
    ensures r.Success? ==> |r.value| == 100 && forall i :: 0 <= i < 100 ==> |r.value[i]| == totalClasses
  {
    if !Conditionable(totalClasses, klass) then Failure(TargetsError(totalClasses, klass))
    else
      var col := Column(totalClasses, klass);
      Success(seq(100, _ => seq(totalClasses, c => if c == col then 1 else 0)))
  }

  /** Every row of the targets is one-hot: its entries are 0 or 1, and the
      single 1 sits in the column congruent to `klass` modulo the number of
      classes. */
  lemma OneHotMarksClass(totalClasses: int, klass: int, i: int, c: int)
    requires Conditionable(totalClasses, klass) && 0 <= i < 100 && 0 <= c < totalClasses
    ensures OneHot(totalClasses, klass).value[i][c] == 1 <==> c % totalClasses == klass % totalClasses
    ensures OneHot(totalClasses, klass).value[i][c] == 0 <==> c % totalClasses != klass % totalClasses
  {
    DivisionOfCell(0, c, totalClasses);
    if klass < 0 {
      DivisionOfCell(-1, klass + totalClasses, totalClasses);
    } else {
      DivisionOfCell(0, klass, totalClasses);
    }
  }

  /** `n` batches `b` laid end to end, as repeated `torch.cat` along the
      first dimension builds them. */
  function Repeat<T>(b: seq<T>, n: nat): seq<T>
  {
    if n == 0 then [] else Repeat(b, n - 1) + b
  }

  lemma {:induction false} RepeatLength<T>(b: seq<T>, n: nat)
    ensures |Repeat(b, n)| == n * |b|
  {
    if n > 0 {
      RepeatLength(b, n - 1);
      var m := n - 1;
      assert (m + 1) * |b| == m * |b| + |b|;
    }
  }

  /** The first batch comes first: `Repeat(b, n)[..|b|] == b` for `n >= 1`. */
  lemma {:induction false} RepeatPrefix<T>(b: seq<T>, n: nat)
    requires n >= 1
    ensures |Repeat(b, n)| >= |b| && Repeat(b, n)[..|b|] == b
  {
    if n == 1 {
      assert Repeat(b, 1) == [] + b;
    } else {
      RepeatPrefix(b, n - 1);
      var front := Repeat(b, n - 1);
      assert (front + b)[..|b|] == front[..|b|];
    }
  }

  /** The arguments of one `generate_examples` call. The generator's forward
      pass on the fixed noise is `sample`, given the conditioning targets or
      `None` for an unconditional generator. */
  datatype Request<Image> = Request(
    args: Args,
    sample: Option<seq<seq<int>>> -> seq<Image>,
    numExamples: int,
    activeClasses: seq<int>,
    totalClasses: int,
    experimentPath: string,
    name: string,
    save: bool,
    isCond: bool)

  /** The generator outputs 100 images at a time. */
  ghost predicate BatchesOfHundred<Image>(q: Request<Image>)
  {
    forall t :: |q.sample(t)| == 100
  }

  /** Whether a figure is saved after class number `idx`. */
  predicate SavesAfter<Image>(q: Request<Image>, idx: int)
  {
    q.save && idx <= q.args.ganSaveClasses
  }

  /** The exception handling class number `idx` raises, if any: building the
      targets of its first batch, or looking up a class that drew no batch
      when its figure is to be saved. */
  function ClassError<Image>(q: Request<Image>, idx: nat): (e: Option<PyError>)
    requires idx < |q.activeClasses|
    ensures e.Some? ==> (e.value == KeyError <==> Rounds(q.numExamples) == 0)
    ensures e.Some? ==> e.value == KeyError || e.value == IndexError || e.value == RuntimeError
  {
    var klass := q.activeClasses[idx];
    if Rounds(q.numExamples) > 0 then
      if q.isCond && !Conditionable(q.totalClasses, klass) then Some(TargetsError(q.totalClasses, klass)) else None
    else if SavesAfter(q, idx) then Some(KeyError)
    else None
  }

  /** The first `upto` classes are handled without an exception. */
  predicate RunsPast<Image>(q: Request<Image>, upto: nat)
    requires upto <= |q.activeClasses|
  {
    forall idx :: 0 <= idx < upto ==> ClassError(q, idx).None?
  }

  /** The batch the generator yields for `klass`: conditioned on the class's
      one-hot targets, or unconditioned. */
  function Batch<Image>(sample: Option<seq<seq<int>>> -> seq<Image>, totalClasses: int, isCond: bool, klass: int)
    : (b: seq<Image>)
    requires isCond ==> Conditionable(totalClasses, klass)
    ensures (forall t :: |sample(t)| == 100) ==> |b| == 100
    ensures !isCond ==> b == sample(None)
  {
    if isCond then sample(Some(OneHot(totalClasses, klass).value)) else sample(None)
  }

  /** The entry of `klass`, or nothing when it has none. */
  function Entry<Image>(examples: map<int, seq<Image>>, klass: int): seq<Image>
  {
    if klass in examples then examples[klass] else []
  }

  /** The dictionary once the first `upto` classes are handled: each class
      in turn gets its batch appended once per round, a class met for the
      first time getting a new entry. */
  function Collected<Image>(q: Request<Image>, upto: nat): (m: map<int, seq<Image>>)
    requires upto <= |q.activeClasses| && RunsPast(q, upto)
    ensures forall k :: k in m ==> k in q.activeClasses[..upto]
    ensures Rounds(q.numExamples) == 0 ==> m == map[]
  {
    var n := Rounds(q.numExamples);
    if upto == 0 || n == 0 then map[]
    else
      var idx := upto - 1;
      var klass := q.activeClasses[idx];
      assert ClassError(q, idx).None?;
      assert q.activeClasses[..upto] == q.activeClasses[..idx] + [klass];
      var before := Collected(q, idx);
      before[klass := Entry(before, klass) + Repeat(Batch(q.sample, q.totalClasses, q.isCond, klass), n)]
  }

  /** The figure saved for `klass`: a 10x10 grid of its first 100 images. */
  function SavedFigure<Image>(q: Request<Image>, klass: int): (f: Figure<Image>)
    requires BatchesOfHundred(q) && (q.isCond ==> Conditionable(q.totalClasses, klass))
    ensures |f.panels| == 100
  {
    Figure(q.experimentPath + "results/" + (q.name + "_C" + IntToString(klass)) + ".png",
           GridPanels(q.args.dataset, Batch(q.sample, q.totalClasses, q.isCond, klass), 10))
  }

  /** The figures saved while handling the first `upto` classes. */
  function SavedFigures<Image>(q: Request<Image>, upto: nat): (fs: seq<Figure<Image>>)
    requires upto <= |q.activeClasses| && RunsPast(q, upto) && BatchesOfHundred(q)
    ensures |fs| <= upto
    ensures !q.save ==> fs == []
  {
    if upto == 0 then []
    else
      var idx := upto - 1;
      assert ClassError(q, idx).None?;
      SavedFigures(q, idx) + (if SavesAfter(q, idx) then [SavedFigure(q, q.activeClasses[idx])] else [])
  }

  /** The figures saved while handling the first `upto` classes are those of
      the classes with index at most `gan_save_classes`, one per class and in
      list order; there are none when `save` is unset. */
  lemma SavedFiguresOfFirstClasses<Image>(q: Request<Image>, upto: nat)
    requires upto <= |q.activeClasses| && RunsPast(q, upto) && BatchesOfHundred(q)
    ensures |SavedFigures(q, upto)|
      == if !q.save || q.args.ganSaveClasses < 0 then 0
         else if q.args.ganSaveClasses + 1 < upto then q.args.ganSaveClasses + 1 else upto
    ensures forall i :: 0 <= i < |SavedFigures(q, upto)| ==>
      ClassError(q, i).None? && SavedFigures(q, upto)[i] == SavedFigure(q, q.activeClasses[i])
  {
    SavedFiguresCount(q, upto);
    SavedFiguresElements(q, upto);
  }

  /** How many figures the first `upto` classes save. */
  lemma {:induction false} SavedFiguresCount<Image>(q: Request<Image>, upto: nat)
    requires upto <= |q.activeClasses| && RunsPast(q, upto) && BatchesOfHundred(q)
    ensures |SavedFigures(q, upto)|
      == if !q.save || q.args.ganSaveClasses < 0 then 0
         else if q.args.ganSaveClasses + 1 < upto then q.args.ganSaveClasses + 1 else upto
    decreases upto
  {
    if upto > 0 {
      SavedFiguresStep(q, upto - 1);
      SavedFiguresCount(q, upto - 1);
    }
  }

  /** Each class among the first `upto` that saves a figure has it at its
      own index. */
  lemma {:induction false} SavedFiguresElements<Image>(q: Request<Image>, upto: nat)
    requires upto <= |q.activeClasses| && RunsPast(q, upto) && BatchesOfHundred(q)
    ensures forall i :: 0 <= i < upto && SavesAfter(q, i) ==>
      ClassError(q, i).None? && i < |SavedFigures(q, upto)|
      && SavedFigures(q, upto)[i] == SavedFigure(q, q.activeClasses[i])
    decreases upto
  {
    if upto > 0 {
      var idx := upto - 1;
      SavedFiguresStep(q, idx);
      SavedFiguresElements(q, idx);
      if SavesAfter(q, idx) {
        SavedFiguresCount(q, idx);
        var before, fs := SavedFigures(q, idx), SavedFigures(q, upto);
        forall i | 0 <= i < upto && SavesAfter(q, i)
          ensures ClassError(q, i).None? && i < |fs| && fs[i] == SavedFigure(q, q.activeClasses[i])
        {
          if i < idx {
            assert fs[i] == before[i];
          } else {
            assert fs[i] == SavedFigure(q, q.activeClasses[idx]);
          }
        }
      } else {
        assert SavedFigures(q, upto) == SavedFigures(q, idx);
      }
    }
  }

  /** Class number `idx`, handled without an exception, adds its figure
      exactly when it is saved. */
  lemma SavedFiguresStep<Image>(q: Request<Image>, idx: nat)
    requires idx < |q.activeClasses| && RunsPast(q, idx + 1) && BatchesOfHundred(q)
    ensures RunsPast(q, idx) && ClassError(q, idx).None?
    ensures SavesAfter(q, idx) ==> q.isCond ==> Conditionable(q.totalClasses, q.activeClasses[idx])
    ensures SavedFigures(q, idx + 1)
      == SavedFigures(q, idx) + (if SavesAfter(q, idx) then [SavedFigure(q, q.activeClasses[idx])] else [])
  {
    assert ClassError(q, idx).None?;
  }

  lemma {:induction false} RepeatAdd<T>(b: seq<T>, m: nat, n: nat)
    ensures Repeat(b, m) + Repeat(b, n) == Repeat(b, m + n)
    decreases n
  {
    if n > 0 {
      RepeatAdd(b, m, n - 1);
      assert Repeat(b, m) + (Repeat(b, n - 1) + b) == (Repeat(b, m) + Repeat(b, n - 1)) + b;
    }
  }

  /** One more occurrence appends one more set of `n` rounds. */
  lemma RepeatRounds<T>(b: seq<T>, n: nat, occ: nat)
    ensures Repeat(b, n * occ) + Repeat(b, n) == Repeat(b, n * (occ + 1))
  {
    RepeatAdd(b, n * occ, n);
    assert n * (occ + 1) == n * occ + n;
  }

  /** At least one round of at least one occurrence opens with the batch. */
  lemma RepeatPrefixRounds<T>(b: seq<T>, n: nat, occ: nat)
    requires n >= 1 && occ >= 1
    ensures |Repeat(b, n * occ)| >= |b| && Repeat(b, n * occ)[..|b|] == b
  {
    MultiplyMonotone(1, occ, n);
    RepeatPrefix(b, n * occ);
  }

  /** Occurrences in a prefix one element longer. */
  lemma SeenStep(classes: seq<int>, idx: nat, k: int)
    requires idx < |classes|
    ensures multiset(classes[..idx + 1])[k] == multiset(classes[..idx])[k] + (if k == classes[idx] then 1 else 0)
    ensures k in classes[..idx + 1] <==> k in classes[..idx] || k == classes[idx]
  {
    assert classes[..idx + 1] == classes[..idx] + [classes[idx]];
  }

  /** The dictionary in closed form: a class has an entry exactly when it
      is among the classes handled and at least one round is drawn, and the
      entry is its batch repeated once per round and per occurrence. */
  lemma {:induction false} CollectedEntry<Image>(q: Request<Image>, upto: nat, k: int)
    requires upto <= |q.activeClasses| && RunsPast(q, upto)
    ensures k in Collected(q, upto) <==> Rounds(q.numExamples) > 0 && k in q.activeClasses[..upto]
    ensures k in Collected(q, upto) ==>
      && (q.isCond ==> Conditionable(q.totalClasses, k))
      && Collected(q, upto)[k] == Repeat(Batch(q.sample, q.totalClasses, q.isCond, k),
                                         Rounds(q.numExamples) * multiset(q.activeClasses[..upto])[k])
    decreases upto
  {
    var n := Rounds(q.numExamples);
    if upto > 0 && n > 0 {
      var idx := upto - 1;
      assert ClassError(q, idx).None?;
      CollectedEntry(q, idx, k);
      SeenStep(q.activeClasses, idx, k);
      if k == q.activeClasses[idx] {
        RepeatRounds(Batch(q.sample, q.totalClasses, q.isCond, k), n, multiset(q.activeClasses[..idx])[k]);
      }
    }
  }

  /** After class number `idx` is handled, with at least one round, its
      entry opens with its batch: the 100 images a saved figure shows. */
  lemma FirstBatchShown<Image>(q: Request<Image>, idx: nat)
    requires idx < |q.activeClasses| && RunsPast(q, idx + 1) && BatchesOfHundred(q)
    requires Rounds(q.numExamples) > 0
    ensures var klass := q.activeClasses[idx];
      && klass in Collected(q, idx + 1)
      && |Collected(q, idx + 1)[klass]| >= 100
      && (q.isCond ==> Conditionable(q.totalClasses, klass))
      && Collected(q, idx + 1)[klass][..100] == Batch(q.sample, q.totalClasses, q.isCond, klass)
  {
    var klass := q.activeClasses[idx];
    var n := Rounds(q.numExamples);
    CollectedEntry(q, idx + 1, klass);
    SeenStep(q.activeClasses, idx, klass);
    RepeatPrefixRounds(Batch(q.sample, q.totalClasses, q.isCond, klass), n, multiset(q.activeClasses[..idx + 1])[klass]);
  }

  /** The shape of the returned dictionary: its keys are exactly the active
      classes, and only when at least 100 examples are asked for; each value
      holds 100 images per round per occurrence of the class in
      `active_classes`. */
  lemma CollectedShape<Image>(q: Request<Image>, klass: int)
    requires RunsPast(q, |q.activeClasses|) && BatchesOfHundred(q)
    ensures var e := Collected(q, |q.activeClasses|);
      && (q.numExamples < 100 ==> e == map[])
      && (klass in e <==> Rounds(q.numExamples) > 0 && klass in q.activeClasses)
      && (klass in e ==> |e[klass]| == Rounds(q.numExamples) * multiset(q.activeClasses)[klass] * 100)
  {
    var all := q.activeClasses;
    assert all[..|all|] == all;
    var e := Collected(q, |all|);
    CollectedEntry(q, |all|, klass);
    if klass in e {
      var n := Rounds(q.numExamples);
      var occ := multiset(all)[klass];
      RepeatLength(Batch(q.sample, q.totalClasses, q.isCond, klass), n * occ);
    }
  }

  /** The first 100 images of a class's entry are its first batch: the
      generator's output for that class's one-hot targets, or, for an
      unconditional generator, the same images whatever the class. */
  lemma EntryStartsWithBatch<Image>(q: Request<Image>, klass: int)
    requires RunsPast(q, |q.activeClasses|) && BatchesOfHundred(q)
    requires klass in Collected(q, |q.activeClasses|)
    ensures var e := Collected(q, |q.activeClasses|)[klass];
      && |e| >= 100
      && (q.isCond ==> Conditionable(q.totalClasses, klass) && e[..100] == q.sample(Some(OneHot(q.totalClasses, klass).value)))
      && (!q.isCond ==> e[..100] == q.sample(None))
  {
    var all := q.activeClasses;
    assert all[..|all|] == all;
    var n := Rounds(q.numExamples);
    var occ := multiset(all)[klass];
    CollectedEntry(q, |all|, klass);
    RepeatPrefixRounds(Batch(q.sample, q.totalClasses, q.isCond, klass), n, occ);
  }

  /** An unconditional request for 200 examples of two classes collects two
      entries of 200 images each, and they are the same images: nothing in
      them depends on the class. */
  lemma TwoClassesUnconditional<Image>(q: Request<Image>, c1: int, c2: int)
    requires q.numExamples == 200 && q.activeClasses == [c1, c2] && c1 != c2
    requires !q.isCond && BatchesOfHundred(q)
    ensures RunsPast(q, 2)
    ensures Collected(q, 2).Keys == {c1, c2}
    ensures |Collected(q, 2)[c1]| == 200 && |Collected(q, 2)[c2]| == 200
    ensures Collected(q, 2)[c1] == Collected(q, 2)[c2]
  {
    assert Rounds(q.numExamples) == 2;
    assert RunsPast(q, 2) by {
      assert ClassError(q, 0).None? && ClassError(q, 1).None?;
    }
    var e := Collected(q, 2);
    assert q.activeClasses[..2] == [c1, c2];
    assert multiset([c1, c2])[c1] == 1 && multiset([c1, c2])[c2] == 1;
    forall k ensures k in e <==> k == c1 || k == c2 {
      CollectedEntry(q, 2, k);
    }
    CollectedShape(q, c1);
    CollectedShape(q, c2);
    CollectedEntry(q, 2, c1);
    CollectedEntry(q, 2, c2);
  }

  /** Saving figures with fewer than 100 examples always fails: no class has
      an entry, so the first class looked up raises KeyError. */
  lemma SavingTooFewExamplesRaises<Image>(q: Request<Image>)
    requires q.numExamples < 100 && q.save && |q.activeClasses| > 0 && q.args.ganSaveClasses >= 0
    ensures !RunsPast(q, |q.activeClasses|) && ClassError(q, 0) == Some(KeyError)
  {
    assert ClassError(q, 0).Some?;
  }

  /** The inner loop of `generate_examples` for one class: `rounds`
      batches drawn and concatenated onto the class's entry, the first
      batch's entry created when the class has none. Building the targets
      raises before anything is drawn. */
  method DrawBatches<Image>(examples: map<int, seq<Image>>, klass: int, rounds: nat,
                            sample: Option<seq<seq<int>>> -> seq<Image>, totalClasses: int, isCond: bool)
    returns (r: Result<map<int, seq<Image>>>)
    ensures r.Failure? <==> rounds > 0 && isCond && !Conditionable(totalClasses, klass)
    ensures r.Failure? ==> r.error == TargetsError(totalClasses, klass)
    ensures r.Success? && rounds == 0 ==> r.value == examples
    ensures r.Success? && rounds > 0 ==>
      && (isCond ==> Conditionable(totalClasses, klass))
      && r.value == examples[klass := Entry(examples, klass) + Repeat(Batch(sample, totalClasses, isCond, klass), rounds)]
  {
    var current := examples;
    var t := 0;
    while t < rounds
      invariant 0 <= t <= rounds
      invariant t > 0 ==> !isCond || Conditionable(totalClasses, klass)
      invariant t == 0 ==> current == examples
      invariant t > 0 ==> current == examples[klass := Entry(examples, klass) + Repeat(Batch(sample, totalClasses, isCond, klass), t)]
    {
      var images;
      if isCond {
        var targets := OneHot(totalClasses, klass);
        if targets.Failure? {
          return Failure(targets.error);
        }
        images := sample(Some(targets.value));
      } else {
        images := sample(None);
      }
      assert images == Batch(sample, totalClasses, isCond, klass);
      ghost var entry := Entry(examples, klass);
      assert entry + Repeat(images, t + 1) == (entry + Repeat(images, t)) + images;
      if klass !in current {
        assert t == 0 && entry == [];
        assert Repeat(images, 0) == [];
        assert entry + Repeat(images, 1) == images;
        current := current[klass := images];
      } else {
        assert current[klass] == entry + Repeat(images, t);
        ghost var previous := current;
        current := current[klass := current[klass] + images];
        if t == 0 {
          assert Repeat(images, 0) == [];
          assert entry + Repeat(images, 1) == entry + images;
        } else {
          assert previous == examples[klass := entry + Repeat(images, t)];
          assert current == examples[klass := entry + Repeat(images, t)][klass := entry + Repeat(images, t + 1)];
        }
      }
      t := t + 1;
    }
    return Success(current);
  }

  /** The save step of `generate_examples` for one class:
      `save_results(args, examples[klass][0:100], name + "_C" + str(klass),
      False, 10, experiment)`. A class without an entry raises KeyError; the
      slice keeps at most the first 100 images. */
  method SaveClassFigure<Image>(args: Args, examples: map<int, seq<Image>>, klass: int, name: string,
                                experimentPath: string)
    returns (r: Result<Figure<Image>>)
    ensures klass !in examples ==> r == Failure(KeyError)
    ensures klass in examples && |examples[klass]| < 100 ==>
      r == if Draws(args.dataset) then Failure(IndexError)
           else Success(Figure(experimentPath + "results/" + (name + "_C" + IntToString(klass)) + ".png",
                               GridPanels(args.dataset, examples[klass], 10)))
    ensures klass in examples && |examples[klass]| >= 100 ==>
      r == Success(Figure(experimentPath + "results/" + (name + "_C" + IntToString(klass)) + ".png",
                          GridPanels(args.dataset, examples[klass][..100], 10)))
  {
    if klass !in examples {
      return Failure(KeyError);
    }
    var entry := examples[klass];
    var shown := if |entry| <= 100 then entry else entry[..100];
    if |entry| == 100 {
      assert entry[..100] == entry;
    }
    r := SaveResults(args, shown, name + "_C" + IntToString(klass), false, 10, experimentPath);
  }

  /** The loop of `generate_examples` over the active classes: class by
      class, its batches are drawn and appended to its entry, and for the
      classes with index at most `gan_save_classes` the entry's first 100
      images are saved as a grid. The first class that raises ends the loop,
      with the figures of the classes before it already saved. */
  method CollectExamples<Image>(args: Args, sample: Option<seq<seq<int>>> -> seq<Image>,
                                numExamples: int, activeClasses: seq<int>, totalClasses: int,
                                experimentPath: string, name: string, save: bool, isCond: bool)
    returns (r: Result<map<int, seq<Image>>>, saved: seq<Figure<Image>>)
    requires forall t :: |sample(t)| == 100
    ensures var q := Request(args, sample, numExamples, activeClasses, totalClasses, experimentPath, name, save, isCond);
      && (r.Success? ==> RunsPast(q, |activeClasses|) && r.value == Collected(q, |activeClasses|)
                         && saved == SavedFigures(q, |activeClasses|))
      && (r.Failure? ==> (exists idx :: 0 <= idx < |activeClasses| && RunsPast(q, idx)
                                                && ClassError(q, idx) == Some(r.error) && saved == SavedFigures(q, idx)))
  {
    ghost var q := Request(args, sample, numExamples, activeClasses, totalClasses, experimentPath, name, save, isCond);
    assert BatchesOfHundred(q);
    var rounds := Rounds(numExamples);
    var examples: map<int, seq<Image>> := map[];
    saved := [];
    var idx := 0;
    while idx < |activeClasses|
      invariant 0 <= idx <= |activeClasses|
      invariant RunsPast(q, idx)
      invariant examples == Collected(q, idx)
      invariant saved == SavedFigures(q, idx)
    {
      var klass := activeClasses[idx];
      var drawn := DrawBatches(examples, klass, rounds, sample, totalClasses, isCond);
      if drawn.Failure? {
        assert ClassError(q, idx) == Some(drawn.error);
        r := Failure(drawn.error);
        assert 0 <= idx < |activeClasses| && RunsPast(q, idx) && ClassError(q, idx) == Some(r.error) && saved == SavedFigures(q, idx);
        return;
      }
      if rounds > 0 {
        RepeatPrefix(Batch(sample, totalClasses, isCond, klass), rounds);
      }
      if save && idx <= args.ganSaveClasses {
        var figure := SaveClassFigure(args, drawn.value, klass, name, experimentPath);
        if figure.Failure? {
          assert ClassError(q, idx) == Some(KeyError);
          r := Failure(figure.error);
          assert 0 <= idx < |activeClasses| && RunsPast(q, idx) && ClassError(q, idx) == Some(r.error) && saved == SavedFigures(q, idx);
          return;
        }
        assert ClassError(q, idx).None?;
        assert figure == Success(SavedFigure(q, klass)) by {
          FirstBatchShown(q, idx);
        }
        assert RunsPast(q, idx + 1) && drawn.value == Collected(q, idx + 1)
            && saved + [figure.value] == SavedFigures(q, idx + 1) by {
          CollectStep(q, idx);
        }
        saved := saved + [figure.value];
      } else {
        assert ClassError(q, idx).None?;
        assert RunsPast(q, idx + 1) && drawn.value == Collected(q, idx + 1)
            && saved == SavedFigures(q, idx + 1) by {
          CollectStep(q, idx);
        }
      }
      examples := drawn.value;
      idx := idx + 1;
    }
    assert activeClasses[..idx] == activeClasses;
    return Success(examples), saved;
  }

  /** Handling class number `idx` without an exception extends the
      dictionary and the saved figures by that class. */
  lemma CollectStep<Image>(q: Request<Image>, idx: nat)
    requires idx < |q.activeClasses| && RunsPast(q, idx) && ClassError(q, idx).None?
    ensures RunsPast(q, idx + 1)
    ensures var klass := q.activeClasses[idx];
      Collected(q, idx + 1)
      == if Rounds(q.numExamples) == 0 then map[]
         else Collected(q, idx)[klass := Entry(Collected(q, idx), klass)
                                         + Repeat(Batch(q.sample, q.totalClasses, q.isCond, klass), Rounds(q.numExamples))]
    ensures BatchesOfHundred(q) ==>
      SavedFigures(q, idx + 1)
      == SavedFigures(q, idx) + (if SavesAfter(q, idx) then [SavedFigure(q, q.activeClasses[idx])] else [])
  {
  }

  /** `generate_examples(args, G, num_examples, active_classes,
      total_classes, fixed_noise, experiment, name, save, is_cond)`: the
      generator is put in evaluation mode, its parameters untouched, and the
      examples are collected. */
  method GenerateExamples<Image>(args: Args, g: Generator, sample: Option<seq<seq<int>>> -> seq<Image>,
                                 numExamples: int, activeClasses: seq<int>, totalClasses: int,
                                 experimentPath: string, name: string, save: bool, isCond: bool)
    returns (r: Result<map<int, seq<Image>>>, saved: seq<Figure<Image>>)
    requires forall t :: |sample(t)| == 100
    modifies g
    ensures !g.training && g.weights == old(g.weights)
    ensures var q := Request(args, sample, numExamples, activeClasses, totalClasses, experimentPath, name, save, isCond);
      && (r.Success? ==> RunsPast(q, |activeClasses|) && r.value == Collected(q, |activeClasses|)
                         && saved == SavedFigures(q, |activeClasses|))
      && (r.Failure? ==> (exists idx :: 0 <= idx < |activeClasses| && RunsPast(q, idx)
                                                && ClassError(q, idx) == Some(r.error) && saved == SavedFigures(q, idx)))
  {
    g.Eval();
    r, saved := CollectExamples(args, sample, numExamples, activeClasses, totalClasses, experimentPath, name, save, isCond);
  }
}
