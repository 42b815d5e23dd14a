/** Optional values, results and the ways a run is aborted. */
module Outcomes {

  datatype Option<+T> = None | Some(value: T)

  datatype Result<+T, +E> = Ok(value: T) | Err(error: E)

  /** Every exception `run_omm` can raise from the logic modelled here. */
  datatype RunError =
    | UnknownRunType        // none of parmfile, parameters, openmmsystem is configured
    | ZeroSavePeriod        // `remaining_steps % save_every` with a save period of zero steps
    | MisalignedSavePeriod  // the remaining steps are not a multiple of the save period
    | ZeroRunLength         // `starting_step / run_steps` with a run length of zero steps
}
