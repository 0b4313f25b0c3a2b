/** An optional value: the firmware's "maybe" results (a phase-cut call that
    may or may not be made, a register value that may or may not be set). */
module Optional {

  datatype Option<+T> = None | Some(value: T)
}
