/**
 * The command-error classifiers of `SZONESErrorHandlers`. Each handler looks
 * at the `stderr` text and the exit code of a finished command and either
 * raises an exception (`Some`) or lets the command pass (`None`). The
 * patterns are literal text, so matching a pattern is substring containment.
 */
module ErrorHandlers {
  import opened Common

  /** `pattern` occurs somewhere in `text`. */
  predicate Contains(text: string, pattern: string)
    decreases |text|
  {
    pattern <= text || (|text| > 0 && Contains(text[1..], pattern))
  }

  /** `pattern` sits in `text` starting at index `i`. */
  predicate OccursAt(text: string, pattern: string, i: int) {
    0 <= i && i + |pattern| <= |text| && text[i..i + |pattern|] == pattern
  }

  /** A window holding the pattern is a containment. */
  lemma {:induction false} OccursContains(text: string, pattern: string, i: int)
    requires OccursAt(text, pattern, i)
    ensures Contains(text, pattern)
    decreases i
  {
    if i == 0 {
      assert text[..|pattern|] == pattern;
    } else {
      assert text[1..][i - 1..i - 1 + |pattern|] == text[i..i + |pattern|];
      OccursContains(text[1..], pattern, i - 1);
    }
  }

  /** A containment has a window holding the pattern. */
  lemma {:induction false} ContainsOccurs(text: string, pattern: string)
    requires Contains(text, pattern)
    ensures exists i :: OccursAt(text, pattern, i)
    decreases |text|
  {
    if pattern <= text {
      assert text[0..|pattern|] == pattern;
      assert OccursAt(text, pattern, 0);
    } else {
      ContainsOccurs(text[1..], pattern);
      var j :| OccursAt(text[1..], pattern, j);
      assert text[j + 1..j + 1 + |pattern|] == text[1..][j..j + |pattern|];
      assert OccursAt(text, pattern, j + 1);
    }
  }

  /** `Contains` agrees with the window definition of a substring. */
  lemma ContainsIffOccurs(text: string, pattern: string)
    ensures Contains(text, pattern) <==> exists i :: OccursAt(text, pattern, i)
  {
    if Contains(text, pattern) {
      ContainsOccurs(text, pattern);
    }
    if i :| OccursAt(text, pattern, i) {
      OccursContains(text, pattern, i);
    }
  }

  /** A text shorter than the pattern cannot contain it. */
  lemma {:induction false} ContainsNeedsRoom(text: string, pattern: string)
    requires Contains(text, pattern)
    ensures |pattern| <= |text|
    decreases |text|
  {
    if !(pattern <= text) {
      ContainsNeedsRoom(text[1..], pattern);
    }
  }

  /** The classified failures; each carries the command's `stderr` as its message. */
  datatype ErrorKind =
    | NoSuchZone(stderr: string)
    | NoSuchFilesystem(stderr: string)
    | NoSuchFileOrDirectory(stderr: string)
    | NotADirectory(stderr: string)
    | CommandFailure(command: string, stderr: string, exitCode: int)

  /** Every Ruby exception the routines can meet; only `SZONESError` is rescued by them. */
  datatype Exception =
    | SZONESError(kind: ErrorKind)
    | NameError(constant: string)
    | ArgumentError(given: nat, expected: nat)
    | NoMethodError(methodName: string)
    | ConnectionError(host: string)
    | SystemStackError

  const NoSuchZonePattern := "No such zone configured"
  const NoSuchFilesystemPattern := "filesystem does not exist"
  const NoSuchFileOrDirectoryPattern := "No such file or directory"
  const NotADirectoryPattern := "Not a directory"

  /** `zonecfg_error_handler`. */
  function ZonecfgHandler(command: string, stdout: string, stderr: string, exitCode: int): (r: Option<Exception>)
    ensures r.Some? <==> exitCode > 0 && Contains(stderr, NoSuchZonePattern)
    ensures r.Some? ==> r.value == SZONESError(NoSuchZone(stderr))
  {
    if exitCode > 0 && Contains(stderr, NoSuchZonePattern) then Some(SZONESError(NoSuchZone(stderr)))
    else None
  }

  /** `zfs_error_handler`: the missing-filesystem pattern is tried first. */
  function ZfsHandler(command: string, stdout: string, stderr: string, exitCode: int): (r: Option<Exception>)
    ensures exitCode > 0 && Contains(stderr, NoSuchFilesystemPattern) ==>
              r == Some(SZONESError(NoSuchFilesystem(stderr)))
    ensures exitCode > 0 && !Contains(stderr, NoSuchFilesystemPattern) && Contains(stderr, NoSuchFileOrDirectoryPattern) ==>
              r == Some(SZONESError(NoSuchFileOrDirectory(stderr)))
    ensures r.None? <==>
              exitCode <= 0 || (!Contains(stderr, NoSuchFilesystemPattern) && !Contains(stderr, NoSuchFileOrDirectoryPattern))
  {
    if exitCode > 0 then
      if Contains(stderr, NoSuchFilesystemPattern) then Some(SZONESError(NoSuchFilesystem(stderr)))
      else if Contains(stderr, NoSuchFileOrDirectoryPattern) then Some(SZONESError(NoSuchFileOrDirectory(stderr)))
      else None
    else None
  }

  /**
   * `bash_error_handler` as written: the raise names `Exception::` instead of
   * the `Exceptions::` namespace, so the constant lookup itself fails and a
   * `NameError` is raised in place of the classified error.
   */
  function BashHandler(command: string, stdout: string, stderr: string, exitCode: int): (r: Option<Exception>)
    ensures r.Some? <==> exitCode > 0 && Contains(stderr, NotADirectoryPattern)
    ensures r.Some? ==> r.value == NameError("Exception::BashNotaDirectoryError")
  {
    if exitCode > 0 && Contains(stderr, NotADirectoryPattern) then Some(NameError("Exception::BashNotaDirectoryError"))
    else None
  }

  /** `bash_error_handler` with the namespace it evidently means. */
  function IntendedBashHandler(command: string, stdout: string, stderr: string, exitCode: int): (r: Option<Exception>)
    ensures r.Some? <==> exitCode > 0 && Contains(stderr, NotADirectoryPattern)
    ensures r.Some? ==> r.value == SZONESError(NotADirectory(stderr))
  {
    if exitCode > 0 && Contains(stderr, NotADirectoryPattern) then Some(SZONESError(NotADirectory(stderr)))
    else None
  }

  /**
   * `basic_error_handler` as written: it calls the three-parameter
   * `CommandFailureError` constructor with two arguments, so Ruby raises an
   * `ArgumentError` before the error object exists.
   */
  function BasicHandler(command: string, stdout: string, stderr: string, exitCode: int): (r: Option<Exception>)
    ensures r.Some? <==> exitCode > 0
    ensures r.Some? ==> r.value == ArgumentError(2, 3)
  {
    if exitCode > 0 then Some(ArgumentError(2, 3)) else None
  }

  /** `basic_error_handler` passing `stderr`, as the constructor expects. */
  function IntendedBasicHandler(command: string, stdout: string, stderr: string, exitCode: int): (r: Option<Exception>)
    ensures r.Some? <==> exitCode > 0
    ensures r.Some? ==> r.value == SZONESError(CommandFailure(command, stderr, exitCode))
  {
    if exitCode > 0 then Some(SZONESError(CommandFailure(command, stderr, exitCode))) else None
  }

  /** No handler raises for an exit code that is not positive, whatever `stderr` says. */
  lemma NoErrorWithoutFailureExit(command: string, stdout: string, stderr: string, exitCode: int)
    requires exitCode <= 0
    ensures ZonecfgHandler(command, stdout, stderr, exitCode) == None
    ensures ZfsHandler(command, stdout, stderr, exitCode) == None
    ensures BashHandler(command, stdout, stderr, exitCode) == None
    ensures IntendedBashHandler(command, stdout, stderr, exitCode) == None
    ensures BasicHandler(command, stdout, stderr, exitCode) == None
    ensures IntendedBasicHandler(command, stdout, stderr, exitCode) == None
  {
  }

  /** The handlers decide from `stderr` and the exit code only: `stdout` is never consulted. */
  lemma HandlersIgnoreStdout(command: string, out1: string, out2: string, stderr: string, exitCode: int)
    ensures ZonecfgHandler(command, out1, stderr, exitCode) == ZonecfgHandler(command, out2, stderr, exitCode)
    ensures ZfsHandler(command, out1, stderr, exitCode) == ZfsHandler(command, out2, stderr, exitCode)
    ensures BashHandler(command, out1, stderr, exitCode) == BashHandler(command, out2, stderr, exitCode)
    ensures BasicHandler(command, out1, stderr, exitCode) == BasicHandler(command, out2, stderr, exitCode)
    ensures IntendedBashHandler(command, out1, stderr, exitCode) == IntendedBashHandler(command, out2, stderr, exitCode)
    ensures IntendedBasicHandler(command, out1, stderr, exitCode) == IntendedBasicHandler(command, out2, stderr, exitCode)
  {
  }

  /** A missing filesystem wins over a missing path when both messages appear. */
  lemma ZfsFilesystemFirst(stderr: string)
    requires Contains(stderr, NoSuchFilesystemPattern) && Contains(stderr, NoSuchFileOrDirectoryPattern)
    ensures ZfsHandler("zfs", "", stderr, 1) == Some(SZONESError(NoSuchFilesystem(stderr)))
  {
  }

  /** `zfs` reporting a missing filesystem, whatever dataset it names, with exit code 1 raises the missing-filesystem error. */
  lemma ZfsMissingFilesystemMessage(dataset: string)
    ensures var stderr := NoSuchFilesystemPattern + ": " + dataset;
            ZfsHandler("zfs", "", stderr, 1) == Some(SZONESError(NoSuchFilesystem(stderr)))
  {
    var stderr := NoSuchFilesystemPattern + ": " + dataset;
    assert stderr[..|NoSuchFilesystemPattern|] == NoSuchFilesystemPattern;
    assert NoSuchFilesystemPattern <= stderr;
  }

  /** "permission denied" matches neither storage pattern, so the storage handler lets it pass. */
  lemma ZfsPermissionDeniedExample()
    ensures ZfsHandler("zfs", "", "permission denied", 1) == None
  {
    if Contains("permission denied", NoSuchFilesystemPattern) {
      ContainsNeedsRoom("permission denied", NoSuchFilesystemPattern);
    }
    if Contains("permission denied", NoSuchFileOrDirectoryPattern) {
      ContainsNeedsRoom("permission denied", NoSuchFileOrDirectoryPattern);
    }
  }

  /** The as-written shell handler raises an exception the routines do not rescue. */
  lemma BashHandlerRaisesNameError()
    ensures var r := BashHandler("ls", "", "ls: /a: Not a directory", 2);
            r.Some? && !r.value.SZONESError?
  {
    var stderr := "ls: /a: Not a directory";
    assert OccursAt(stderr, NotADirectoryPattern, 8);
    OccursContains(stderr, NotADirectoryPattern, 8);
  }

  /** The as-written basic handler raises an exception the routines do not rescue. */
  lemma BasicHandlerRaisesArgumentError()
    ensures var r := BasicHandler("zoneadm", "", "zone busy", 1);
            r.Some? && !r.value.SZONESError?
  {
  }

  /** With the intended namespace and arity every raised error is a rescuable `SZONESError` whose message is `stderr`. */
  lemma IntendedHandlersRaiseRescuable(command: string, stdout: string, stderr: string, exitCode: int)
    ensures forall r :: r in [ZonecfgHandler(command, stdout, stderr, exitCode),
                              ZfsHandler(command, stdout, stderr, exitCode),
                              IntendedBashHandler(command, stdout, stderr, exitCode),
                              IntendedBasicHandler(command, stdout, stderr, exitCode)] && r.Some? ==>
              r.value.SZONESError? && r.value.kind.stderr == stderr
  {
  }
}
