/** Errors of a finished process, and how they are normalised. */
module WaitError {
  import opened Bytes

  /** Errors as errors.As and errors.Is see them: leaves, wrappers of one error, and wrappers of several. */
  datatype Err =
    | ExitError(code: int)
    | ProcessDone
    | Other(text: Text)
    | Wrapped(inner: Err)
    | Unexpected(cause: Err)
    | Joined(parts: seq<Err>)

  /** errors.As(err, *exec.ExitError) || errors.Is(err, os.ErrProcessDone). */
  predicate Expected(e: Err) {
    match e
    case ExitError(_) => true
    case ProcessDone => true
    case Other(_) => false
    case Wrapped(inner) => Expected(inner)
    case Unexpected(cause) => Expected(cause)
    case Joined(parts) => exists i | 0 <= i < |parts| :: Expected(parts[i])
  }

  /** The errors at the ends of all chains of wrapping. */
  function Leaves(e: Err): set<Err> {
    match e
    case Wrapped(inner) => Leaves(inner)
    case Unexpected(cause) => Leaves(cause)
    case Joined(parts) => set i, leaf | 0 <= i < |parts| && leaf in Leaves(parts[i]) :: leaf
    case _ => {e}
  }

  /** An exit status, or the news that the process was gone already, is somewhere in the error. */
  ghost predicate EndsInExit(err: Option<Err>) {
    err.Some? && exists leaf | leaf in Leaves(err.value) :: leaf.ExitError? || leaf == ProcessDone
  }

  lemma {:induction false} ExpectedIff(e: Err)
    ensures Expected(e) <==> EndsInExit(Some(e))
  {
    match e {
      case Wrapped(inner) => ExpectedIff(inner);
      case Unexpected(cause) => ExpectedIff(cause);
      case Joined(parts) =>
        forall i | 0 <= i < |parts|
          ensures Expected(parts[i]) <==> EndsInExit(Some(parts[i]))
        {
          ExpectedIff(parts[i]);
        }
        if Expected(e) {
          var i :| 0 <= i < |parts| && Expected(parts[i]);
          var leaf :| leaf in Leaves(parts[i]) && (leaf.ExitError? || leaf == ProcessDone);
          assert leaf in Leaves(e);
        }
        if EndsInExit(Some(e)) {
          var leaf :| leaf in Leaves(e) && (leaf.ExitError? || leaf == ProcessDone);
          var i :| 0 <= i < |parts| && leaf in Leaves(parts[i]);
          assert EndsInExit(Some(parts[i]));
        }
      case _ => assert Leaves(e) == {e} && e in Leaves(e);
    }
  }

  /** normalizeWaitError. */
  function Normalize(err: Option<Err>, stopped: bool): Option<Err> {
    if err.None? || (stopped && Expected(err.value)) then None else Some(Unexpected(err.value))
  }

  /** One normalisation after the other, by each of the given flags. */
  function NormalizeAll(err: Option<Err>, flags: seq<bool>): Option<Err> {
    if flags == [] then err else Normalize(NormalizeAll(err, flags[..|flags| - 1]), flags[|flags| - 1])
  }

  /**
   * Whatever was normalised before, by whichever flags, a last normalisation as stopped gives nil if and only if the
   * original error was nil or an expected one; so the order in which the flag is set and read does not matter.
   */
  lemma {:induction false} StoppedDecides(err: Option<Err>, flags: seq<bool>)
    ensures Normalize(NormalizeAll(err, flags), true).None? <==> err.None? || Expected(err.value)
  {
    if flags != [] {
      StoppedDecides(err, flags[..|flags| - 1]);
    }
  }

  lemma StopIgnoresTheRace(err: Option<Err>, flag: bool)
    ensures Normalize(Normalize(err, flag), true).None? <==> Normalize(err, true).None?
  {
    assert NormalizeAll(err, [flag]) == Normalize(NormalizeAll(err, []), flag);
    StoppedDecides(err, [flag]);
  }
}
