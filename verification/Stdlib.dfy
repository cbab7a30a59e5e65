/** The Go library functions whose code is not modelled, gathered as parameters, and
    the laws the proofs use. Floating-point numbers are modelled as reals. */
module Stdlib {
  import opened Text

  datatype Lib = Lib(
    parseFloat: string -> Option<real>,     // strconv.ParseFloat
    formatFloat: real -> string,            // strconv.FormatFloat(x, 'g', -1, 64)
    sprintFloat: real -> string,            // fmt.Sprint of a float64
    regexOk: string -> bool,                // regexp.Compile succeeds
    regexMatch: (string, string) -> bool,   // compiled pattern, subject
    cidrOk: string -> bool,                 // net.ParseCIDR succeeds
    cidrMatch: (string, string) -> bool)    // network, address

  /** ParseFloat reads every integer that ParseInt reads. */
  predicate ReadsIntegers(lib: Lib, s: string) {
    ParseInt(s).Some? ==> lib.parseFloat(s) == Some(ParseInt(s).value as real)
  }

  /** ParseFloat reads every decimal integer. */
  predicate ReadsDecimal(lib: Lib, k: int) {
    lib.parseFloat(FormatInt(k)) == Some(k as real)
  }

  predicate PrintsSomething(lib: Lib, x: real) {
    lib.formatFloat(x) != "" && lib.sprintFloat(x) != ""
  }

  ghost predicate Lawful(lib: Lib) {
    && (forall s :: ReadsIntegers(lib, s))
    && (forall k :: ReadsDecimal(lib, k))
    && (forall x :: PrintsSomething(lib, x))
  }
}
