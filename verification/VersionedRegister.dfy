/** One value with a version: what a versioned document is to the callers that share it. */
module VersionedRegister {

  datatype Register<V> = Register(version: int, value: V)

  /** A write checked against `over`: it lands only on that version, and the version rises. */
  predicate Replaces<V(==)>(r: Register<V>, r': Register<V>, over: int, value: V) {
    r.version == over && r'.version > over && r'.value == value
  }
}
