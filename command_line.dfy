/**
 * Validation of the command-line arguments (mediti_collector/main.py, `Arguments` and
 * `parse_command_line_arguments`). The argparse wiring itself is not modelled: its result, the
 * namespace of typed values, is the input `RawArguments`. Frequency and period are reals; Dafny reals
 * are finite, so the infinity and NaN checks have no counterpart.
 */
module CommandLine {
  import opened Wrappers

  /** A character of the class `[a-zA-Z-_]`: the ranges a-z and A-Z, then the literals '-' and '_'. */
  predicate IsPatternChar(c: char) {
    ('a' <= c <= 'z') || ('A' <= c <= 'Z') || c == '-' || c == '_'
  }

  predicate AllPatternChars(s: string) {
    forall i :: 0 <= i < |s| ==> IsPatternChar(s[i])
  }

  /**
   * What `_VALID_IDENTIFIER_RE.match(s)` accepts, as Python's `re` evaluates `^[a-zA-Z-_]+$`:
   * without MULTILINE, `$` matches at the end of the string and also just before a final newline.
   */
  predicate MatchesIdentifierPattern(s: string) {
    (|s| > 0 && AllPatternChars(s))
    || (|s| > 1 && s[|s| - 1] == '\n' && AllPatternChars(s[..|s| - 1]))
  }

  /** The identifier rule the pattern is meant to enforce: one or more of `[a-zA-Z-_]`, nothing else. */
  predicate ValidIdentifier(s: string) {
    |s| > 0 && AllPatternChars(s)
  }

  /** The pattern as written lets an identifier with a trailing newline through. */
  lemma TrailingNewlineMatches()
    ensures MatchesIdentifierPattern("a\n") && !ValidIdentifier("a\n")
  {
    assert "a\n"[..1] == "a";
    assert !IsPatternChar("a\n"[1]);
  }

  /** The corrected rule is exactly the pattern minus the strings that contain a newline. */
  lemma ValidIdentifierIsPatternWithoutNewline(s: string)
    ensures ValidIdentifier(s) <==> (MatchesIdentifierPattern(s) && forall i :: 0 <= i < |s| ==> s[i] != '\n')
  {
  }

  /**
   * The identifier check the parser applies: the pattern as `re.match` evaluates it (the program as
   * written), or the intended rule.
   */
  datatype IdentifierRule = AsWritten | Intended

  predicate Accepts(rule: IdentifierRule, s: string) {
    match rule
    case AsWritten => MatchesIdentifierPattern(s)
    case Intended => ValidIdentifier(s)
  }

  /** Whatever the intended rule accepts, the pattern as written accepts too. */
  lemma IntendedAcceptsLess(s: string)
    ensures Accepts(Intended, s) ==> Accepts(AsWritten, s)
  {
    ValidIdentifierIsPatternWithoutNewline(s);
  }

  /** The namespace argparse hands to `parse_command_line_arguments`. */
  datatype RawArguments = RawArguments(
    outdir: string, identifier: string, frequency: real, period: real, camera: int, actions: seq<string>)

  /** `Arguments`: the validated program arguments. */
  datatype Arguments = Arguments(
    outdir: string, identifier: string, frequency: real, period: real, cameraIdentifier: int,
    actions: seq<string>)
  {
    /** The assertions of `Arguments.__init__` (finiteness aside), with the identifier check `rule`. */
    predicate Valid(rule: IdentifierRule) {
      && Accepts(rule, identifier)
      && frequency > 0.0
      && period > 0.0
      && |actions| > 0
      && forall a :: a in actions ==> Accepts(rule, a)
    }
  }

  /** The `ValueError`s of `parse_command_line_arguments`, each with the value it reports. */
  datatype ArgumentError =
    | InvalidIdentifier(identifier: string)
    | InvalidFrequency(frequency: real)
    | InvalidPeriod(period: real)
    | NoActions
    | InvalidAction(action: string)

  /** The first action that does not match the pattern, if any: the loop's `raise` picks this one. */
  function FirstInvalidAction(rule: IdentifierRule, actions: seq<string>): (r: Option<string>)
    ensures r.None? <==> forall a :: a in actions ==> Accepts(rule, a)
    ensures r.Some? ==> exists i :: 0 <= i < |actions| && actions[i] == r.value
                          && !Accepts(rule, actions[i])
                          && forall j :: 0 <= j < i ==> Accepts(rule, actions[j])
  {
    if actions == [] then None
    else if !Accepts(rule, actions[0]) then Some(actions[0])
    else
      var rest := FirstInvalidAction(rule, actions[1..]);
      assert forall a :: a in actions ==> a == actions[0] || a in actions[1..];
      if rest.Some? then
        ghost var i :| 0 <= i < |actions[1..]| && actions[1..][i] == rest.value
                       && !Accepts(rule, actions[1..][i])
                       && forall j :: 0 <= j < i ==> Accepts(rule, actions[1..][j]);
        assert actions[i + 1] == rest.value;
        rest
      else rest
  }

  /**
   * `parse_command_line_arguments` with the identifier check `rule` (`AsWritten` is the program as it
   * stands): the checks run in a fixed order (identifier, frequency, period, empty action list, each
   * action in turn) and the first one that fails decides the error.
   */
  function ParseCommandLineArguments(rule: IdentifierRule, raw: RawArguments): (r: Result<Arguments, ArgumentError>)
    ensures r.Success? <==> Arguments(raw.outdir, raw.identifier, raw.frequency, raw.period,
                                      raw.camera, raw.actions).Valid(rule)
    ensures r.Success? ==> r.value.Valid(rule)
                           && r.value == Arguments(raw.outdir, raw.identifier, raw.frequency, raw.period,
                                                   raw.camera, raw.actions)
    ensures (r == Failure(InvalidIdentifier(raw.identifier))) <==> !Accepts(rule, raw.identifier)
    ensures (r == Failure(InvalidFrequency(raw.frequency)))
              <==> Accepts(rule, raw.identifier) && raw.frequency <= 0.0
    ensures (r == Failure(InvalidPeriod(raw.period)))
              <==> Accepts(rule, raw.identifier) && raw.frequency > 0.0 && raw.period <= 0.0
    ensures (r == Failure(NoActions))
              <==> Accepts(rule, raw.identifier) && raw.frequency > 0.0 && raw.period > 0.0
                   && |raw.actions| == 0
    ensures (r.Failure? && r.error.InvalidAction?)
              <==> Accepts(rule, raw.identifier) && raw.frequency > 0.0 && raw.period > 0.0
                   && |raw.actions| > 0 && exists a :: a in raw.actions && !Accepts(rule, a)
    ensures r.Failure? && r.error.InvalidAction? ==>
              exists i :: 0 <= i < |raw.actions| && raw.actions[i] == r.error.action
                          && !Accepts(rule, raw.actions[i])
                          && forall j :: 0 <= j < i ==> Accepts(rule, raw.actions[j])
  {
    if !Accepts(rule, raw.identifier) then Failure(InvalidIdentifier(raw.identifier))
    else if raw.frequency <= 0.0 then Failure(InvalidFrequency(raw.frequency))
    else if raw.period <= 0.0 then Failure(InvalidPeriod(raw.period))
    else if |raw.actions| == 0 then Failure(NoActions)
    else match FirstInvalidAction(rule, raw.actions)
      case Some(a) => Failure(InvalidAction(a))
      case None =>
        Success(Arguments(raw.outdir, raw.identifier, raw.frequency, raw.period, raw.camera, raw.actions))
  }

  /**
   * The program as written accepts the identifier `"a\n"` and returns arguments for it; with the
   * intended rule the same command line is rejected as an invalid identifier.
   */
  lemma ParseAcceptsTrailingNewline()
    ensures var raw := RawArguments("out", "a\n", 1.0, 1.0, 0, ["sit"]);
            && ParseCommandLineArguments(AsWritten, raw).Success?
            && ParseCommandLineArguments(Intended, raw) == Failure(InvalidIdentifier("a\n"))
  {
    TrailingNewlineMatches();
    var raw := RawArguments("out", "a\n", 1.0, 1.0, 0, ["sit"]);
    assert AllPatternChars("sit");
    assert forall a :: a in raw.actions ==> a == "sit";
  }

  /** Every command line the corrected parser accepts, the program as written accepts alike. */
  lemma IntendedParseAgrees(raw: RawArguments)
    ensures ParseCommandLineArguments(Intended, raw).Success? ==>
              ParseCommandLineArguments(AsWritten, raw) == ParseCommandLineArguments(Intended, raw)
  {
    IntendedAcceptsLess(raw.identifier);
    forall a | a in raw.actions
      ensures Accepts(Intended, a) ==> Accepts(AsWritten, a)
    {
      IntendedAcceptsLess(a);
    }
  }
}
