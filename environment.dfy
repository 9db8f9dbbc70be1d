/** What the client learns from the operating system and the crypto library, as oracles:
    the model never performs I/O, it takes each outcome as given. */
module Environment {
  import opened Transport

  /** The outcome of one OS or library call: a value, or the error text it reported. */
  datatype Io<+T> = Success(value: T) | Failure(cause: string)

  datatype FileSystem = FileSystem(
    /** `os.Stdin.Stat()` reports `os.ModeCharDevice`: a terminal, or a device such as
        /dev/null; false for a pipe or a regular file. */
    stdinIsCharDevice: bool,
    /** `os.Open(path)` */
    open: string -> Io<()>,
    /** `ioutil.ReadFile(path)` */
    readFile: string -> Io<seq<bv8>>,
    /** `tls.LoadX509KeyPair(certFile, keyFile)` */
    loadKeyPair: (string, string) -> Io<Certificate>)
}
