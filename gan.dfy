/** The collaborators gutils.py receives from the training loop: the run
    configuration and the generator network. */
module Gan {

  /** The fields of the parsed command-line arguments the utilities read. */
  datatype Args = Args(dataset: string, ganSaveClasses: int)

  /** The generator's learned parameters, abstracted to where they came from:
      the initial ones, or those read from a checkpoint file. */
  datatype Weights = Initial | FromFile(path: string)

  /** The generator network as far as the utilities touch it: its parameters
      and its train/eval mode. Its forward pass is passed separately, as a
      function. */
  class Generator {
    var weights: Weights
    var training: bool

    constructor ()
      ensures weights == Initial && training
    {
      weights := Initial;
      training := true;
    }

    /** `G.eval()`: switch to evaluation mode, parameters untouched. */
    method Eval()
      modifies this
      ensures !training && weights == old(weights)
    {
      training := false;
    }

    /** `G.load_state_dict(torch.load(path))`: the parameters become those
        stored at `path`; the mode is untouched. */
    method LoadStateDict(path: string)
      modifies this
      ensures weights == FromFile(path) && training == old(training)
    {
      weights := FromFile(path);
    }
  }
}
