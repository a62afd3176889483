/**
 * The configuration a worker reads from the model file's `Cfg`: only the
 * fields the training loop's decisions depend on.
 */
module Config {

  datatype RunConfig = RunConfig(
    basicLr: real,              // learning rate per image per device
    lrDecayRate: real,          // factor applied once per passed decay stage
    lrDecayStages: seq<real>,   // epochs at which the rate decays, in order
    warmIters: int,             // steps of linear warmup in epoch 0
    maxEpoch: int,              // number of epochs
    nrImagesEpoch: int,         // images seen per epoch over all devices
    logInterval: int            // rank 0 logs every this many steps
  )
}
