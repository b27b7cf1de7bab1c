/** Exit-code selection of src/error-handler.js.

    `ExitCodesErrorMapper` is an insertion-ordered table from regular
    expressions to exit codes; `handleError` walks it in insertion order and
    overwrites its local exit code at every entry whose expression matches the
    error message, so the last matching entry wins. Each expression carries the
    `i` flag. Without the `u` flag, non-ASCII characters never fold onto ASCII
    letters, so for these ASCII-only patterns folding ASCII letters, which is
    what `FoldCase` does, decides the match. */
module ErrorHandler {

  /** The three expressions of the table, in insertion order. */
  datatype ErrorPattern =
    | CannotLocateDockerfile   // /Cannot locate specified Dockerfile/ig
    | UnknownInstruction       // /Unknown instruction/ig
    | CommandReturnedNonZero   // /The command '.*' returned a non-zero code/ig

  const ExitCodesErrorMapper: seq<(ErrorPattern, int)> :=
    [(CannotLocateDockerfile, 11), (UnknownInstruction, 12), (CommandReturnedNonZero, 13)]

  /** The exit code when no entry matches. */
  const DefaultExitCode: int := 1

  const CommandOpening: string := "The command '"
  const CommandClosing: string := "' returned a non-zero code"

  /** ASCII letters fold to upper case; every other character is its own fold. */
  function FoldCase(c: char): char
  {
    if 'a' <= c <= 'z' then (c as int - 32) as char else c
  }

  /** The characters `.` does not match. */
  predicate IsLineTerminator(c: char)
  {
    c == '\n' || c == '\r' || c == '\U{2028}' || c == '\U{2029}'
  }

  /** `s` begins with `literal`, up to case. */
  predicate StartsWithIgnoringCase(s: string, literal: string)
  {
    |literal| <= |s| && forall k :: 0 <= k < |literal| ==> FoldCase(s[k]) == FoldCase(literal[k])
  }

  /** `literal` occurs somewhere in `s`, up to case. */
  predicate ContainsIgnoringCase(s: string, literal: string)
  {
    exists i :: 0 <= i <= |s| && StartsWithIgnoringCase(s[i..], literal)
  }

  /** `The command '.*' returned a non-zero code` occurs somewhere in `s`, up to
      case, with no line terminator in the part `.*` matched. */
  predicate ContainsFailedCommand(s: string)
  {
    exists i, j :: 0 <= i && i + |CommandOpening| <= j <= |s|
      && StartsWithIgnoringCase(s[i..], CommandOpening)
      && StartsWithIgnoringCase(s[j..], CommandClosing)
      && NoLineTerminator(s[i + |CommandOpening|..j])
  }

  predicate NoLineTerminator(s: string)
  {
    forall k :: 0 <= k < |s| ==> !IsLineTerminator(s[k])
  }

  /** `RegExp.prototype.test` of the pattern on the message (ignoring `lastIndex`). */
  predicate Matches(pattern: ErrorPattern, message: string)
  {
    match pattern
    case CannotLocateDockerfile => ContainsIgnoringCase(message, "Cannot locate specified Dockerfile")
    case UnknownInstruction => ContainsIgnoringCase(message, "Unknown instruction")
    case CommandReturnedNonZero => ContainsFailedCommand(message)
  }

  /** `key.test(message)` for every key of the table. */
  function Tester(message: string): ErrorPattern -> bool
  {
    pattern => Matches(pattern, message)
  }

  /** The code of the last entry of `table` whose pattern passes `test`, or
      `fallback`: the table scanned from its end, stopping at the first match. */
  function LastMatch(table: seq<(ErrorPattern, int)>, test: ErrorPattern -> bool, fallback: int): int
  {
    if table == [] then fallback
    else if test(table[|table| - 1].0) then table[|table| - 1].1
    else LastMatch(table[..|table| - 1], test, fallback)
  }

  /** The exit code `handleError` assigns for a message. */
  function ExitCodeFor(message: string): int
  {
    LastMatch(ExitCodesErrorMapper, Tester(message), DefaultExitCode)
  }

  /** `handleError(err)`: writes the message and a line break (colouring aside)
      and selects the exit code by overwriting it at every matching entry. */
  method HandleError(message: string) returns (exitCode: int, written: string)
    ensures exitCode == ExitCodeFor(message)
    ensures written == message + "\n"
  {
    exitCode := DefaultExitCode;
    var i := 0;
    while i < |ExitCodesErrorMapper|
      invariant 0 <= i <= |ExitCodesErrorMapper|
      invariant exitCode == LastMatch(ExitCodesErrorMapper[..i], Tester(message), DefaultExitCode)
    {
      var (pattern, potentialExitCode) := ExitCodesErrorMapper[i];
      assert ExitCodesErrorMapper[..i + 1][..i] == ExitCodesErrorMapper[..i];
      if Matches(pattern, message) {
        exitCode := potentialExitCode;
      }
      i := i + 1;
    }
    assert ExitCodesErrorMapper[..i] == ExitCodesErrorMapper;
    written := message + "\n";
  }

  // ---------------------------------------------------------------------------
  // Properties
  // ---------------------------------------------------------------------------

  /** `LastMatch` against its reference reading, first half: the fallback
      when no entry matches. */
  lemma {:induction false} LastMatchWithoutMatch(table: seq<(ErrorPattern, int)>, test: ErrorPattern -> bool, fallback: int)
    requires forall k :: 0 <= k < |table| ==> !test(table[k].0)
    ensures LastMatch(table, test, fallback) == fallback
  {
    if table != [] {
      var init := table[..|table| - 1];
      assert forall k :: 0 <= k < |init| ==> init[k] == table[k];
      LastMatchWithoutMatch(init, test, fallback);
    }
  }

  /** Second half: otherwise the code of the matching entry with the greatest
      index, whatever the entries before it. */
  lemma {:induction false} LastMatchIsLastMatchingEntry(table: seq<(ErrorPattern, int)>, test: ErrorPattern -> bool, fallback: int, k: nat)
    requires k < |table| && test(table[k].0)
    requires forall j :: k < j < |table| ==> !test(table[j].0)
    ensures LastMatch(table, test, fallback) == table[k].1
    decreases |table|
  {
    var n := |table| - 1;
    var init := table[..n];
    if k < n {
      assert init[k] == table[k];
      assert forall j :: k < j < |init| ==> init[j] == table[j];
      LastMatchIsLastMatchingEntry(init, test, fallback, k);
    }
  }

  /** The whole decision: the failed-command entry, inserted last, beats the
      other two; an unknown instruction beats a missing Dockerfile; 1 when none matches. */
  lemma ExitCodeDecision(message: string)
    ensures ExitCodeFor(message) ==
      if Matches(CommandReturnedNonZero, message) then 13
      else if Matches(UnknownInstruction, message) then 12
      else if Matches(CannotLocateDockerfile, message) then 11
      else 1
  {
    var t := ExitCodesErrorMapper;
    var t2, t1 := [(CannotLocateDockerfile, 11), (UnknownInstruction, 12)], [(CannotLocateDockerfile, 11)];
    assert t[..|t| - 1] == t2 && t2[..|t2| - 1] == t1 && t1[..|t1| - 1] == [];
    var test := Tester(message);
    assert LastMatch(t1, test, 1) == if Matches(CannotLocateDockerfile, message) then 11 else 1;
    assert LastMatch(t2, test, 1) == if Matches(UnknownInstruction, message) then 12 else LastMatch(t1, test, 1);
  }

  /** The exit code is always one of 1, 11, 12 and 13. */
  lemma ExitCodeRange(message: string)
    ensures ExitCodeFor(message) in {1, 11, 12, 13}
  {
    ExitCodeDecision(message);
  }

  /** Matching ignores case: two messages that agree up to ASCII case get the same exit code. */
  lemma ExitCodeIgnoresCase(a: string, b: string)
    requires |a| == |b|
    requires forall k :: 0 <= k < |a| ==> FoldCase(a[k]) == FoldCase(b[k])
    ensures ExitCodeFor(a) == ExitCodeFor(b)
  {
    MatchesIgnoresCase(a, b);
    ExitCodeDecision(a);
    ExitCodeDecision(b);
  }

  lemma MatchesIgnoresCase(a: string, b: string)
    requires |a| == |b|
    requires forall k :: 0 <= k < |a| ==> FoldCase(a[k]) == FoldCase(b[k])
    ensures forall p :: Matches(p, a) <==> Matches(p, b)
  {
    forall i, literal | 0 <= i <= |a|
      ensures StartsWithIgnoringCase(a[i..], literal) <==> StartsWithIgnoringCase(b[i..], literal)
    {
      if |literal| <= |a| - i {
        assert forall k :: 0 <= k < |literal| ==> FoldCase(a[i..][k]) == FoldCase(b[i..][k]);
      }
    }
    forall i, j | 0 <= i <= j <= |a|
      ensures NoLineTerminator(a[i..j]) <==> NoLineTerminator(b[i..j])
    {
      assert forall k :: 0 <= k < j - i ==> (IsLineTerminator(a[i..j][k]) <==> IsLineTerminator(b[i..j][k])) by {
        forall k | 0 <= k < j - i
          ensures IsLineTerminator(a[i..j][k]) <==> IsLineTerminator(b[i..j][k])
        {
          assert FoldCase(a[i + k]) == FoldCase(b[i + k]);
        }
      }
    }
  }

  /** A literal with a character that occurs nowhere in `s`, up to case, does not occur in `s`. */
  lemma MissingCharacterExcludes(s: string, literal: string, k: nat)
    requires k < |literal|
    requires forall i :: 0 <= i < |s| ==> FoldCase(s[i]) != FoldCase(literal[k])
    ensures !ContainsIgnoringCase(s, literal)
  {
    forall i | 0 <= i <= |s|
      ensures !StartsWithIgnoringCase(s[i..], literal)
    {
      if i + k < |s| {
        assert s[i..][k] == s[i + k];
      }
    }
  }

  /** A literal is absent from `s` when one of its letters is, in both cases. */
  lemma LetterExcludes(s: string, literal: string, k: nat, letter: char)
    requires 'a' <= letter <= 'z' && letter !in s && FoldCase(letter) !in s
    requires k < |literal| && FoldCase(literal[k]) == FoldCase(letter)
    ensures !ContainsIgnoringCase(s, literal)
  {
    forall i | 0 <= i < |s|
      ensures FoldCase(s[i]) != FoldCase(literal[k])
    {
      assert s[i] in s;
    }
    MissingCharacterExcludes(s, literal, k);
  }

  /** A literal is absent from `s` when one of its non-letters is. */
  lemma NonLetterExcludes(s: string, literal: string, k: nat)
    requires k < |literal| && !('a' <= literal[k] <= 'z') && !('A' <= literal[k] <= 'Z')
    requires literal[k] !in s
    ensures !ContainsIgnoringCase(s, literal)
  {
    forall i | 0 <= i < |s|
      ensures FoldCase(s[i]) != FoldCase(literal[k])
    {
      assert s[i] in s;
    }
    MissingCharacterExcludes(s, literal, k);
  }

  /** A literal that is a prefix of `s` starts `s` up to case too. */
  lemma PrefixStarts(s: string, literal: string)
    requires literal <= s
    ensures StartsWithIgnoringCase(s, literal)
  {
  }

  /** A failed-command message contains the opening of the pattern. */
  lemma FailedCommandHasOpening(s: string)
    ensures ContainsFailedCommand(s) ==> ContainsIgnoringCase(s, CommandOpening)
  {
  }

  /** A match of the failed-command pattern between two positions. */
  lemma FailedCommandWitness(s: string, i: nat, j: nat)
    requires i + |CommandOpening| <= j <= |s|
    requires StartsWithIgnoringCase(s[i..], CommandOpening) && StartsWithIgnoringCase(s[j..], CommandClosing)
    requires NoLineTerminator(s[i + |CommandOpening|..j])
    ensures ContainsFailedCommand(s)
  {
  }

  /** The message of the missing-Dockerfile test gives 11. */
  lemma DockerfileMessageGivesEleven(message: string)
    requires message == "Cannot locate " + "specified " + "Dockerfile" + ": dockerfile2"
    ensures ExitCodeFor(message) == 11
  {
    DockerfileMessageMatches(message);
    DockerfileMessageLacksUnknownInstruction(message);
    DockerfileMessageLacksCommand(message);
    OnlyDockerfileGivesEleven(message);
  }

  lemma DockerfileMessageMatches(message: string)
    requires message == "Cannot locate " + "specified " + "Dockerfile" + ": dockerfile2"
    ensures Matches(CannotLocateDockerfile, message)
  {
    PrefixStarts(message[0..], "Cannot locate " + "specified " + "Dockerfile");
  }

  lemma DockerfileMessageLacksUnknownInstruction(message: string)
    requires message == "Cannot locate " + "specified " + "Dockerfile" + ": dockerfile2"
    ensures !ContainsIgnoringCase(message, "Unknown instruction")
  {
    DockerfileMessageLacksW(message);
    LetterExcludes(message, "Unknown instruction", 5, 'w');
  }

  lemma DockerfileMessageLacksW(message: string)
    requires message == "Cannot locate " + "specified " + "Dockerfile" + ": dockerfile2"
    ensures 'w' !in message && 'W' !in message
  {
    var a, b, c, d := "Cannot locate ", "specified ", "Dockerfile", ": dockerfile2";
    assert 'w' !in a && 'w' !in b && 'w' !in c && 'w' !in d;
    assert 'W' !in a && 'W' !in b && 'W' !in c && 'W' !in d;
  }

  lemma DockerfileMessageLacksCommand(message: string)
    requires message == "Cannot locate " + "specified " + "Dockerfile" + ": dockerfile2"
    ensures !ContainsIgnoringCase(message, CommandOpening)
  {
    var a, b, c, d := "Cannot locate ", "specified ", "Dockerfile", ": dockerfile2";
    assert '\'' !in a && '\'' !in b && '\'' !in c && '\'' !in d;
    assert CommandOpening[12] == '\'';
    NonLetterExcludes(message, CommandOpening, 12);
  }

  lemma OnlyDockerfileGivesEleven(s: string)
    requires Matches(CannotLocateDockerfile, s)
    requires !ContainsIgnoringCase(s, "Unknown instruction") && !ContainsIgnoringCase(s, CommandOpening)
    ensures ExitCodeFor(s) == 11
  {
    FailedCommandHasOpening(s);
    ExitCodeDecision(s);
  }

  /** The message of the unknown-instruction test gives 12. */
  lemma UnknownInstructionMessageGivesTwelve(message: string)
    requires message == "Unknown instruction: JUMP"
    ensures ExitCodeFor(message) == 12
  {
    var a, b := "Unknown instruction", ": JUMP";
    assert message == a + b;
    assert '\'' !in message;
    assert CommandOpening[12] == '\'';
    NonLetterExcludes(message, CommandOpening, 12);
    PrefixStarts(message[0..], a);
    FailedCommandHasOpening(message);
    ExitCodeDecision(message);
  }

  /** The message of the failed-instruction test gives 13. */
  lemma FailedCommandMessageGivesThirteen(message: string)
    requires message == "The command '" + "/bin/sh -c exit 2" + "' returned a non-zero code" + ": 2"
    ensures ExitCodeFor(message) == 13
  {
    FailedCommandMessageMatches(message);
    FailedCommandGivesThirteen(message);
  }

  lemma FailedCommandMessageMatches(message: string)
    requires message == "The command '" + "/bin/sh -c exit 2" + "' returned a non-zero code" + ": 2"
    ensures ContainsFailedCommand(message)
  {
    var a, b, c, d := "The command '", "/bin/sh -c exit 2", "' returned a non-zero code", ": 2";
    assert a == CommandOpening && c == CommandClosing && |CommandOpening| == 13;
    assert message[30..] == c + d;
    PrefixStarts(message[0..], a);
    PrefixStarts(message[30..], c);
    assert message[13..30] == b;
    CommandTextHasNoTerminator(b);
    FailedCommandWitness(message, 0, 30);
  }

  lemma CommandTextHasNoTerminator(text: string)
    requires text == "/bin/sh" + " -c exit 2"
    ensures NoLineTerminator(text)
  {
    var a, b := "/bin/sh", " -c exit 2";
    assert NoLineTerminator(a) && NoLineTerminator(b);
    forall k | 0 <= k < |text|
      ensures !IsLineTerminator(text[k])
    {
      if k < |a| { assert text[k] == a[k]; } else { assert text[k] == b[k - |a|]; }
    }
  }

  lemma FailedCommandGivesThirteen(s: string)
    requires ContainsFailedCommand(s)
    ensures ExitCodeFor(s) == 13
  {
    ExitCodeDecision(s);
  }

  /** The message of the unknown-error test matches nothing and gives 1. */
  lemma UnknownErrorMessageGivesOne(message: string)
    requires message == "Unknown Error"
    ensures ExitCodeFor(message) == 1
  {
    UnknownErrorMatchesNothing(message);
    NothingMatchedGivesOne(message);
  }

  lemma UnknownErrorMatchesNothing(message: string)
    requires message == "Unknown Error"
    ensures !ContainsIgnoringCase(message, "Cannot locate specified Dockerfile")
    ensures !ContainsIgnoringCase(message, "Unknown instruction")
    ensures !ContainsIgnoringCase(message, CommandOpening)
  {
    assert 'd' !in message && 'D' !in message && 's' !in message && 'S' !in message && '\'' !in message;
    LetterExcludes(message, "Cannot locate specified Dockerfile", 24, 'd');
    LetterExcludes(message, "Unknown instruction", 10, 's');
    assert CommandOpening[12] == '\'';
    NonLetterExcludes(message, CommandOpening, 12);
  }

  lemma NothingMatchedGivesOne(s: string)
    requires !ContainsIgnoringCase(s, "Cannot locate specified Dockerfile")
    requires !ContainsIgnoringCase(s, "Unknown instruction") && !ContainsIgnoringCase(s, CommandOpening)
    ensures ExitCodeFor(s) == 1
  {
    FailedCommandHasOpening(s);
    ExitCodeDecision(s);
  }

  // ---------------------------------------------------------------------------
  // The tests of src/error-handler.spec.js, on their own messages
  // ---------------------------------------------------------------------------

  lemma MissingDockerfileExample()
    ensures ExitCodeFor("Cannot locate specified Dockerfile: dockerfile2") == 11
  {
    var message := "Cannot locate " + "specified " + "Dockerfile" + ": dockerfile2";
    assert message == "Cannot locate specified Dockerfile: dockerfile2";
    DockerfileMessageGivesEleven(message);
  }

  lemma UnknownInstructionExample()
    ensures ExitCodeFor("Unknown instruction: JUMP") == 12
  {
    UnknownInstructionMessageGivesTwelve("Unknown instruction: JUMP");
  }

  /** The failed-instruction message: the opening and closing of the pattern
      around the command `/bin/sh -c exit 2`, then the code. */
  lemma FailedCommandExample()
    ensures ExitCodeFor("The command '" + "/bin/sh -c exit 2" + "' returned a non-zero code" + ": 2") == 13
  {
    FailedCommandMessageGivesThirteen("The command '" + "/bin/sh -c exit 2" + "' returned a non-zero code" + ": 2");
  }

  lemma UnknownErrorExample()
    ensures ExitCodeFor("Unknown Error") == 1
  {
    UnknownErrorMessageGivesOne("Unknown Error");
  }
}
