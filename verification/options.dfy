/** The optional value used for every operation of the engine that can fail:
    a load that meets a missing or truncated file, a roulette walk that
    finds no unit. */
module Options {

  datatype Option<+T> = None | Some(value: T)
}
