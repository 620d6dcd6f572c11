/** The interactive session: a record of six options and a flag that ends the
    prompt loop. The responses the user types are given up front as a sequence. */
module PasswordSession {
  import opened ExitKeywords

  /** An option's value is either a number (the length) or a yes/no flag. */
  datatype OptionValue = Number(n: int) | Flag(b: bool)

  /** A named option, as displayed in the options panel. */
  datatype SessionOption = SessionOption(key: string, value: OptionValue)

  /** The six options of a session, in display order. */
  datatype Options = Options(
    desiredCharacterLength: SessionOption,
    shouldDisplayGeneratedPassword: SessionOption,
    shouldCopyGeneratedPasswordToClipboard: SessionOption,
    shouldIncludeAlphabet: SessionOption,
    shouldIncludeNumbers: SessionOption,
    shouldIncludeSymbols: SessionOption)

  /** Some response in the sequence is an exit code. */
  predicate HasExitCode(responses: seq<string>) {
    exists i :: 0 <= i < |responses| && IsExitCode(responses[i])
  }

  /** How many responses the loop reads from `responses`: up to and including
      the first exit code, or all of them when there is none. */
  function PromptCount(responses: seq<string>): (n: nat)
    ensures n <= |responses|
  {
    if responses == [] then 0
    else if IsExitCode(responses[0]) then 1
    else 1 + PromptCount(responses[1..])
  }

  /** The loop stops right after the first exit code: the count is that
      response's index plus one, and every earlier response is not an exit code. */
  lemma {:induction false} PromptCountAtFirstExit(responses: seq<string>, i: nat)
    requires i < |responses| && IsExitCode(responses[i])
    requires forall j :: 0 <= j < i ==> !IsExitCode(responses[j])
    ensures PromptCount(responses) == i + 1
  {
    if i > 0 {
      assert !IsExitCode(responses[0]);
      PromptCountAtFirstExit(responses[1..], i - 1);
    }
  }

  /** Without an exit code the loop reads every response. */
  lemma {:induction false} PromptCountWithoutExit(responses: seq<string>)
    requires !HasExitCode(responses)
    ensures PromptCount(responses) == |responses|
  {
    if responses != [] {
      assert !IsExitCode(responses[0]);
      assert !HasExitCode(responses[1..]) by {
        forall j | 0 <= j < |responses| - 1 ensures !IsExitCode(responses[1..][j]) {
          assert responses[1..][j] == responses[j + 1];
        }
      }
      PromptCountWithoutExit(responses[1..]);
    }
  }

  class Session {
    var isUserFinished: bool
    var options: Options

    /** A new session: not finished, with the default option values. */
    constructor ()
      ensures !isUserFinished
      ensures options.desiredCharacterLength == SessionOption("Length", Number(24))
      ensures options.shouldDisplayGeneratedPassword == SessionOption("DisplayPassword", Flag(false))
      ensures options.shouldCopyGeneratedPasswordToClipboard == SessionOption("CopyToClipboard", Flag(true))
      ensures options.shouldIncludeAlphabet == SessionOption("Alphabet", Flag(true))
      ensures options.shouldIncludeNumbers == SessionOption("Numbers", Flag(true))
      ensures options.shouldIncludeSymbols == SessionOption("Symbols", Flag(true))
    {
      isUserFinished := false;
      options := Options(
        SessionOption("Length", Number(24)),
        SessionOption("DisplayPassword", Flag(false)),
        SessionOption("CopyToClipboard", Flag(true)),
        SessionOption("Alphabet", Flag(true)),
        SessionOption("Numbers", Flag(true)),
        SessionOption("Symbols", Flag(true)));
    }

    /** The prompt loop. Each round reads the next response; an exit code sets
        the finished flag, which ends the loop. Returns how many responses
        were read. The options are never written, and the flag only ever goes
        from false to true. */
    method Run(responses: seq<string>) returns (prompts: nat)
      modifies this`isUserFinished
      ensures options == old(options)
      ensures old(isUserFinished) ==> isUserFinished && prompts == 0
      ensures !old(isUserFinished) ==> isUserFinished == HasExitCode(responses)
      ensures !old(isUserFinished) ==> prompts == PromptCount(responses)
      ensures !old(isUserFinished) && isUserFinished ==>
        1 <= prompts && IsExitCode(responses[prompts - 1]) &&
        forall j :: 0 <= j < prompts - 1 ==> !IsExitCode(responses[j])
    {
      prompts := 0;
      ghost var wasFinished := isUserFinished;
      while !isUserFinished && prompts < |responses|
        invariant prompts <= |responses|
        invariant wasFinished ==> isUserFinished && prompts == 0
        invariant !wasFinished && isUserFinished ==> 1 <= prompts && IsExitCode(responses[prompts - 1])
        invariant !wasFinished ==>
          forall j :: 0 <= j < (if isUserFinished then prompts - 1 else prompts) ==> !IsExitCode(responses[j])
      {
        var response := responses[prompts];
        prompts := prompts + 1;
        if IsExitCode(response) {
          isUserFinished := true;
        }
      }
      if !wasFinished {
        if isUserFinished {
          PromptCountAtFirstExit(responses, prompts - 1);
        } else {
          PromptCountWithoutExit(responses);
        }
      }
    }
  }

  /** The program's entry: a fresh session runs its loop over the responses.
      It ends exactly when some response is an exit code, after reading the
      responses up to and including the first one. */
  method RunSession(responses: seq<string>) returns (prompts: nat, finished: bool)
    ensures finished == HasExitCode(responses)
    ensures prompts == PromptCount(responses)
    ensures finished ==> 1 <= prompts <= |responses| && IsExitCode(responses[prompts - 1])
    ensures finished ==> forall j :: 0 <= j < prompts - 1 ==> !IsExitCode(responses[j])
    ensures !finished ==> prompts == |responses|
  {
    var session := new Session();
    prompts := session.Run(responses);
    finished := session.isUserFinished;
    if !finished {
      PromptCountWithoutExit(responses);
    }
  }
}
