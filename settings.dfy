/** The command-line configuration main.go reads into its global `c`. */
module Settings {

  /**
   * The flags of one run. `dry` and `rename` are parsed but never consulted
   * by the code that moves files.
   */
  datatype Config = Config(
    source: string,
    destination: string,
    dry: bool,
    rename: bool,
    noSkip: bool,
    overWrite: bool,
    yes: bool,
    together: bool,
    mode: string)
}
