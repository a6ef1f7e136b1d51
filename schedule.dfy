/** `update_lr`: at the epochs listed in the schedule, every parameter group's
    learning rate in the generator's and the discriminator's optimizer is
    multiplied by the matching gamma. */
module Schedule {
  import opened Python

  /** One entry of `optimizer.param_groups`: the learning rate and the other
      hyper-parameters of the group, which `update_lr` never touches. */
  datatype ParamGroup = ParamGroup(lr: real, options: map<string, real>)

  /** The groups after multiplying every learning rate by `gamma`. */
  function Scaled(groups: seq<ParamGroup>, gamma: real): (r: seq<ParamGroup>)
    ensures |r| == |groups|
    ensures forall j :: 0 <= j < |groups| ==> r[j].options == groups[j].options
  {
    seq(|groups|, j requires 0 <= j < |groups| => groups[j].(lr := groups[j].lr * gamma))
  }

  /** Scaling twice is scaling once by the product. */
  lemma ScaledTwice(groups: seq<ParamGroup>, a: real, b: real)
    ensures Scaled(Scaled(groups, a), b) == Scaled(groups, a * b)
  {
    var lhs, rhs := Scaled(Scaled(groups, a), b), Scaled(groups, a * b);
    forall j | 0 <= j < |groups| ensures lhs[j] == rhs[j] {
      assert (groups[j].lr * a) * b == groups[j].lr * (a * b);
    }
  }

  /** Scaling twice by `a` and then twice by `b` is scaling twice by `a * b`. */
  lemma ScaledTwiceEach(groups: seq<ParamGroup>, a: real, b: real)
    ensures Scaled(Scaled(Scaled(Scaled(groups, a), a), b), b) == Scaled(Scaled(groups, a * b), a * b)
  {
    var aa, bb, ab := a * a, b * b, a * b;
    ScaledTwice(groups, a, a);
    ScaledTwice(Scaled(groups, aa), b, b);
    ScaledTwice(groups, aa, bb);
    ScaledTwice(groups, ab, ab);
    assert aa * bb == ab * ab;
  }

  /** Scaling by one changes nothing. */
  lemma ScaledByOne(groups: seq<ParamGroup>)
    ensures Scaled(groups, 1.0) == groups
  {
    var r := Scaled(groups, 1.0);
    forall j | 0 <= j < |groups| ensures r[j] == groups[j] { }
  }

  /** An optimizer as `update_lr` sees it: its list of parameter groups, each
      updated in place. */
  class Optimizer {
    var paramGroups: seq<ParamGroup>

    constructor (groups: seq<ParamGroup>)
      ensures paramGroups == groups
    {
      paramGroups := groups;
    }

    /** One inner loop of `update_lr`: for each parameter group, read its
        `lr` and store `lr * gan_gammas[temp]`. A missing gamma raises
        IndexError at the first group, before any group changes; with no
        group the gamma is never read. */
    method ScaleLearningRates(gammas: seq<real>, temp: nat) returns (r: Result<()>)
      modifies this
      ensures r.Failure? <==> temp >= |gammas| && |old(paramGroups)| > 0
      ensures r.Failure? ==> r.error == IndexError
      ensures temp < |gammas| ==> paramGroups == Scaled(old(paramGroups), gammas[temp])
      ensures temp >= |gammas| ==> paramGroups == old(paramGroups)
    {
      var j := 0;
      while j < |paramGroups|
        invariant 0 <= j <= |paramGroups| == |old(paramGroups)|
        invariant forall k :: 0 <= k < j ==>
          temp < |gammas| && paramGroups[k] == old(paramGroups)[k].(lr := old(paramGroups)[k].lr * gammas[temp])
        invariant forall k :: j <= k < |paramGroups| ==> paramGroups[k] == old(paramGroups)[k]
        invariant j > 0 ==> temp < |gammas|
      {
        var currentLr := paramGroups[j].lr;
        if temp >= |gammas| {
          return Failure(IndexError);
        }
        paramGroups := paramGroups[j := paramGroups[j].(lr := currentLr * gammas[temp])];
        j := j + 1;
      }
      if temp < |gammas| {
        var scaled := Scaled(old(paramGroups), gammas[temp]);
        assert forall k :: 0 <= k < |paramGroups| ==> paramGroups[k] == scaled[k];
      }
      return Success(());
    }
  }

  /** The first index from `from` on whose schedule entry is `epoch`, or
      `|schedule|` when there is none. */
  function NextMatch(schedule: seq<int>, epoch: int, from: nat): (c: nat)
    ensures c <= |schedule|
    ensures forall i :: from <= i < c ==> schedule[i] != epoch
    ensures c < |schedule| ==> from <= c && schedule[c] == epoch
    decreases |schedule| - from
  {
    if from >= |schedule| then |schedule|
    else if schedule[from] == epoch then from
    else NextMatch(schedule, epoch, from + 1)
  }

  /** How far `update_lr` gets: the first matching schedule index that has no
      gamma, or `|schedule|`. Every matching index before it has a gamma. */
  function Cutoff(schedule: seq<int>, gammas: seq<real>, epoch: int): (c: nat)
    ensures c <= |schedule|
    ensures forall i :: 0 <= i < c && schedule[i] == epoch ==> i < |gammas|
    ensures c < |schedule| ==> schedule[c] == epoch && |gammas| <= c
  {
    NextMatch(schedule, epoch, |gammas|)
  }

  /** The factor the first `n` schedule entries apply at `epoch`: the
      product, in list order, of `gammas[i]` over the `i < n` whose entry
      equals `epoch`. */
  function Gain(schedule: seq<int>, gammas: seq<real>, epoch: int, n: nat): (g: real)
    requires n <= Cutoff(schedule, gammas, epoch)
    ensures (forall i :: 0 <= i < n && i < |gammas| && schedule[i] == epoch ==> gammas[i] > 0.0) ==> g > 0.0
  {
    if n == 0 then 1.0
    else Gain(schedule, gammas, epoch, n - 1) * (if schedule[n - 1] == epoch then gammas[n - 1] else 1.0)
  }

  /** An epoch that no schedule entry names gets factor one: learning rates
      stay as they are. */
  lemma {:induction false} UnscheduledEpochGain(schedule: seq<int>, gammas: seq<real>, epoch: int, n: nat)
    requires forall i :: 0 <= i < |schedule| ==> schedule[i] != epoch
    requires n <= |schedule|
    ensures Cutoff(schedule, gammas, epoch) == |schedule|
    ensures Gain(schedule, gammas, epoch, n) == 1.0
  {
    if n > 0 {
      UnscheduledEpochGain(schedule, gammas, epoch, n - 1);
    }
  }

  /** When no schedule entry names the epoch, `update_lr` reaches the end of
      the schedule and leaves every group as it was, whether the two
      optimizers are distinct or the same. */
  lemma UnscheduledEpochKeepsGroups(schedule: seq<int>, gammas: seq<real>, epoch: int, groups: seq<ParamGroup>)
    requires forall i :: 0 <= i < |schedule| ==> schedule[i] != epoch
    ensures Cutoff(schedule, gammas, epoch) == |schedule|
    ensures Scaled(groups, Gain(schedule, gammas, epoch, |schedule|)) == groups
    ensures Scaled(Scaled(groups, Gain(schedule, gammas, epoch, |schedule|)), Gain(schedule, gammas, epoch, |schedule|)) == groups
  {
    UnscheduledEpochGain(schedule, gammas, epoch, |schedule|);
    ScaledByOne(groups);
  }

  /** An epoch that exactly one schedule entry names, with its gamma present,
      gets exactly that gamma. */
  lemma {:induction false} SingleEntryGain(schedule: seq<int>, gammas: seq<real>, epoch: int, k: nat, n: nat)
    requires k < |schedule| && k < |gammas| && schedule[k] == epoch
    requires forall i :: 0 <= i < |schedule| && i != k ==> schedule[i] != epoch
    requires n <= |schedule|
    ensures Cutoff(schedule, gammas, epoch) == |schedule|
    ensures Gain(schedule, gammas, epoch, n) == if n <= k then 1.0 else gammas[k]
  {
    if n > 0 {
      SingleEntryGain(schedule, gammas, epoch, k, n - 1);
    }
  }

  /** A schedule `[5, 5]` with gammas `[0.5, 0.1]` compounds both at epoch 5. */
  lemma RepeatedEntryCompounds()
    ensures Cutoff([5, 5], [0.5, 0.1], 5) == 2
    ensures Gain([5, 5], [0.5, 0.1], 5, 2) == 0.5 * 0.1
  {
  }

  /** `update_lr(epoch, g_opt, d_opt, gan_schedule, gan_gammas)`. For every
      schedule index `temp` whose entry equals `epoch`, in order, scale every
      group of `g_opt` and then of `d_opt` by `gan_gammas[temp]`. The result:
      every learning rate multiplied by the factor of the indices reached,
      twice over when both arguments are the same optimizer; a matching index
      without a gamma raises IndexError there, keeping the earlier updates,
      unless neither optimizer has a group. */
  method UpdateLr(epoch: int, gOpt: Optimizer, dOpt: Optimizer, ganSchedule: seq<int>, ganGammas: seq<real>)
    returns (r: Result<()>)
    modifies gOpt, dOpt
    ensures var c := Cutoff(ganSchedule, ganGammas, epoch);
      r.Failure? <==> c < |ganSchedule| && (|old(gOpt.paramGroups)| > 0 || |old(dOpt.paramGroups)| > 0)
    ensures r.Failure? ==> r.error == IndexError
    ensures var f := Gain(ganSchedule, ganGammas, epoch, Cutoff(ganSchedule, ganGammas, epoch));
      gOpt != dOpt ==>
        && gOpt.paramGroups == Scaled(old(gOpt.paramGroups), f)
        && dOpt.paramGroups == Scaled(old(dOpt.paramGroups), f)
    ensures var f := Gain(ganSchedule, ganGammas, epoch, Cutoff(ganSchedule, ganGammas, epoch));
      gOpt == dOpt ==> gOpt.paramGroups == Scaled(Scaled(old(gOpt.paramGroups), f), f)
  {
    ghost var c := Cutoff(ganSchedule, ganGammas, epoch);
    ghost var empty := |gOpt.paramGroups| == 0 && |dOpt.paramGroups| == 0;
    ScaledByOne(old(gOpt.paramGroups));
    ScaledByOne(old(dOpt.paramGroups));
    ScaledByOne(Scaled(old(gOpt.paramGroups), 1.0));
    var temp := 0;
    while temp < |ganSchedule|
      invariant 0 <= temp <= |ganSchedule|
      invariant temp <= c || empty
      invariant |gOpt.paramGroups| == |old(gOpt.paramGroups)| && |dOpt.paramGroups| == |old(dOpt.paramGroups)|
      invariant var f := Gain(ganSchedule, ganGammas, epoch, if temp <= c then temp else c);
        gOpt != dOpt ==>
          && gOpt.paramGroups == Scaled(old(gOpt.paramGroups), f)
          && dOpt.paramGroups == Scaled(old(dOpt.paramGroups), f)
      invariant var f := Gain(ganSchedule, ganGammas, epoch, if temp <= c then temp else c);
        gOpt == dOpt ==> gOpt.paramGroups == Scaled(Scaled(old(gOpt.paramGroups), f), f)
    {
      if ganSchedule[temp] == epoch {
        ghost var f := Gain(ganSchedule, ganGammas, epoch, if temp <= c then temp else c);
        ghost var g0, d0 := gOpt.paramGroups, dOpt.paramGroups;
        var rg := gOpt.ScaleLearningRates(ganGammas, temp);
        if rg.Failure? {
          return rg;
        }
        ghost var d1 := dOpt.paramGroups;
        var rd := dOpt.ScaleLearningRates(ganGammas, temp);
        if rd.Failure? {
          return rd;
        }
        if temp < |ganGammas| {
          var gamma := ganGammas[temp];
          assert temp < c;
          assert Gain(ganSchedule, ganGammas, epoch, temp + 1) == f * gamma;
          if gOpt != dOpt {
            ScaledTwice(old(gOpt.paramGroups), f, gamma);
            ScaledTwice(old(dOpt.paramGroups), f, gamma);
          } else {
            assert d1 == Scaled(g0, gamma);
            assert gOpt.paramGroups == Scaled(d1, gamma);
            ScaledTwiceEach(old(gOpt.paramGroups), f, gamma);
          }
        } else {
          assert c <= temp && gOpt.paramGroups == [] && dOpt.paramGroups == [];
        }
      } else if temp < c {
        ghost var f := Gain(ganSchedule, ganGammas, epoch, temp);
        assert Gain(ganSchedule, ganGammas, epoch, temp + 1) == f;
      }
      temp := temp + 1;
    }
    return Success(());
  }
}
