/** Shared types of the trainer's components. */
module Types {

  /** The four ways of keying Morse, one of them active at a time. */
  datatype InputMode = KeyboardDual | KeyboardSingle | MouseDual | MouseSingle
}
