/** Definitions shared by every module: the optional value and the width of size_t. */
module Common {
  /** The optional value used where the C code returns NULL or leaves a field unset. */
  datatype Option<T> = None | Some(value: T)

  /** size_t is 64 bits wide. */
  const SizeModulus: nat := 0x1_0000_0000_0000_0000
}
