/** Small shared datatypes. */
module Base {

  /** A value that may be absent (the source's `null` / `undefined`). */
  datatype Option<+T> = None | Some(value: T)
}

/** What the Promise around `child_process.exec` settles with. */
module Process {

  /** `resolve(stdout)` on exit code 0, `reject(stdout)` otherwise. */
  datatype ExecResult = Resolved(stdout: string) | Rejected(stdout: string)
}
