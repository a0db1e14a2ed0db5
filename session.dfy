/** The interpreter session: the `had_error` flag the scanner raises when it
    reports a lexical error. The diagnostic stream is abstracted into a ghost
    log of the reports made. */
module Session {

  /** One report: the line, the location text and the message. */
  datatype Diagnostic = Diagnostic(line: nat, location: string, message: string)

  class Lox {
    var hadError: bool
    /** Every report made through this session, oldest first. */
    ghost var reports: seq<Diagnostic>

    /** The flag is raised exactly when something has been reported. */
    ghost predicate Valid()
      reads this
    {
      hadError <==> reports != []
    }

    constructor ()
      ensures Valid()
      ensures !hadError && reports == []
    {
      hadError := false;
      reports := [];
    }

    /** Reports an error on `line` with an empty location. */
    method Error(line: nat, message: string)
      requires Valid()
      modifies this
      ensures Valid()
      ensures hadError
      ensures reports == old(reports) + [Diagnostic(line, "", message)]
    {
      Report(line, "", message);
    }

    /** Records one report and raises the error flag; the flag is never lowered here. */
    method Report(line: nat, location: string, message: string)
      requires Valid()
      modifies this
      ensures Valid()
      ensures hadError
      ensures reports == old(reports) + [Diagnostic(line, location, message)]
    {
      reports := reports + [Diagnostic(line, location, message)];
      hadError := true;
    }
  }
}
