/** The aggregated sensor frame shared between the tasks (app_ctx.h). */
module AppCtx {
  import opened Common

  /** `sensor_frame_t` (`seq` is `seqNum` here). The four readings are floats in the firmware; they
      are only copied around here, so they are kept as `real`s. */
  datatype Frame = Frame(lux: real, luxPercLum: real, temp: real, hum: real, seqNum: uint32, tick: nat)
}
