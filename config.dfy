/**
 * config.go: the package-wide configuration. Config is a mutable record held
 * by pointer; the package variable defaultCfg (here the field of the one
 * Store object standing for the package's globals) starts out pointing at a
 * Config with the compiled-in defaults, and SetCfg repoints it.
 */
module Configuration {
  const DefaultDepth := 10
  const DefaultErrorConnectionFlag := "\nCaused by: "

  class Config {
    var depth: int
    var errorConnectionFlag: string

    constructor (depth: int, errorConnectionFlag: string)
      ensures this.depth == depth && this.errorConnectionFlag == errorConnectionFlag
    {
      this.depth := depth;
      this.errorConnectionFlag := errorConnectionFlag;
    }
  }

  /** The package-level variables of config.go. */
  class Store {
    var defaultCfg: Config?

    /** Package initialisation: defaultCfg points at a new Config holding the defaults. */
    constructor ()
      ensures defaultCfg != null && fresh(defaultCfg)
      ensures defaultCfg.depth == DefaultDepth && defaultCfg.errorConnectionFlag == DefaultErrorConnectionFlag
    {
      defaultCfg := new Config(DefaultDepth, DefaultErrorConnectionFlag);
    }

    /**
     * SetCfg: the current configuration becomes exactly c, nil included, and
     * the previous Config object is left as it was. Since the new state is c
     * alone, two calls leave what the second leaves, and repeating a call
     * changes nothing.
     */
    method SetCfg(c: Config?)
      modifies this
      ensures defaultCfg == c
      ensures old(defaultCfg) != null ==> unchanged(old(defaultCfg))
      ensures c != null ==> unchanged(c)
    {
      defaultCfg := c;
    }
  }
}
