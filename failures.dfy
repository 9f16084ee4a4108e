/**
 * The exceptions the engine raises or catches, the outcome of one poll of a
 * task, and the daemon's error-file protocol as EnditException.create reads it.
 */
module Failures {
  import opened Wrappers
  import opened Text
  import Fs

  datatype Failure =
    | Endit(rc: int, message: string)      // EnditException
    | Cache(code: int, message: string)    // dCache's CacheException
    | IO(io: Fs.IOError)                   // an IOException from the file system
    | URISyntax(input: string)             // URISyntaxException
    | IllegalArgument(message: string)     // IllegalArgumentException, NumberFormatException
    | IllegalState(message: string)        // IllegalStateException
    | Propagated(cause: Failure)           // a checked exception rethrown unchecked
    | NullPointer                          // a directory used before configure set it
    | Cancellation                         // CancellationException of a cancelled future
    | RejectedExecution                    // RejectedExecutionException of an executor that was shut down

  /** An exception together with the exceptions added to it with addSuppressed. */
  datatype Thrown = Thrown(cause: Failure, suppressed: seq<Failure>)

  /** One call of a task's poll: no result yet (null), a result, or an exception. */
  datatype PollOutcome<+R> = NotYet | Done(result: R) | Threw(failure: Failure)

  const NoReasonMessage: string := "Endit reported a stage failure without providing a reason."

  /** CacheException.DEFAULT_ERROR_CODE as dCache defines it. */
  const DefaultErrorCode: int := 666

  /**
   * The (code, message) pair read from the lines of an error file: a first
   * line that parses as an int is the code and the remaining lines joined by
   * "\n" are the message; otherwise `defaultCode` and all lines joined (or a
   * fixed message when there are no lines).
   */
  function ParseErrorLines(lines: seq<string>, defaultCode: int): (int, string)
  {
    if lines == [] then (defaultCode, NoReasonMessage)
    else
      match ParseInt(lines[0])
      case Some(code) => (code, Join(lines[1..], "\n"))
      case None => (defaultCode, Join(lines, "\n"))
  }

  /** The EnditException(rc, message) constructor. */
  function NewEnditException(rc: int, message: string): (e: Failure)
    ensures e.Endit? && ReturnCode(e) == rc && e.message == message
  {
    Endit(rc, message)
  }

  /** EnditException.getReturnCode. */
  function ReturnCode(e: Failure): int
    requires e.Endit?
  {
    e.rc
  }

  /** EnditException.create: total, and always an EnditException. */
  function Create(lines: seq<string>): (e: Failure)
    ensures e.Endit?
  {
    var (code, message) := ParseErrorLines(lines, 1);
    NewEnditException(code, message)
  }

  /** No lines: code 1 with the fixed reason. */
  lemma CreateWithoutLines()
    ensures Create([]) == Endit(1, NoReasonMessage)
  {
  }

  /** A file whose first line is a code and whose other lines are the message reads back as that pair. */
  lemma CreateRoundTrip(code: int, message: seq<string>)
    requires Int32Min <= code <= Int32Max
    ensures Create([IntToString(code)] + message) == Endit(code, Join(message, "\n"))
  {
    ParseIntToString(code);
    assert ([IntToString(code)] + message)[1..] == message;
  }

  /** A single numeric line gives that code and an empty message. */
  lemma CreateCodeOnly(code: int)
    requires Int32Min <= code <= Int32Max
    ensures Create([IntToString(code)]) == Endit(code, "")
  {
    CreateRoundTrip(code, []);
    assert [IntToString(code)] + [] == [IntToString(code)];
  }

  /** A first line that is not an int gives code 1 and every line in the message. */
  lemma CreateNotNumeric(lines: seq<string>)
    requires lines != [] && ParseInt(lines[0]) == None
    ensures Create(lines) == Endit(1, Join(lines, "\n"))
  {
  }

  /** The example of the error-file protocol: ["42", "reason text"] is (42, "reason text"). */
  lemma CreateExample()
    ensures Create(["42", "reason text"]) == Endit(42, "reason text")
  {
    assert IntToString(42) == "42" by {
      assert NatToString(4) == "4";
    }
    CreateRoundTrip(42, ["reason text"]);
  }
}
