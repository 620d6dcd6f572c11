/** Recognition of the words that end a session. The input is lower-cased and
    compared against a fixed list; there is no trimming of whitespace. */
module ExitKeywords {

  const ExitCodes: seq<string> :=
    ["exit", "quit", "q", "bye", "close", "end", "stop", "terminate", "done", "finish", "finished"]

  /** ASCII lower-casing of one character; every other character is unchanged. */
  function LowerChar(c: char): (d: char)
    ensures 'A' <= c <= 'Z' ==> 'a' <= d <= 'z' && d as int - c as int == 32
    ensures !('A' <= c <= 'Z') ==> d == c
  {
    if 'A' <= c <= 'Z' then (c as int + 32) as char else c
  }

  /** Lower-cases a string character by character. */
  function ToLower(s: string): (r: string)
    ensures |r| == |s|
    ensures forall i :: 0 <= i < |s| ==> r[i] == LowerChar(s[i])
  {
    if s == [] then [] else [LowerChar(s[0])] + ToLower(s[1..])
  }

  /** A string with no upper-case ASCII letter. */
  predicate IsLowerCase(s: string) {
    forall i :: 0 <= i < |s| ==> !('A' <= s[i] <= 'Z')
  }

  /** Two strings that agree once both are lower-cased. */
  predicate EqualIgnoringCase(s: string, t: string) {
    |s| == |t| && forall i :: 0 <= i < |s| ==> LowerChar(s[i]) == LowerChar(t[i])
  }

  /** Lower-casing leaves a lower-case string as it is, and its result is lower-case. */
  lemma ToLowerOfLowerCase(s: string)
    ensures IsLowerCase(ToLower(s))
    ensures IsLowerCase(s) ==> ToLower(s) == s
  {
    if IsLowerCase(s) {
      assert forall i :: 0 <= i < |s| ==> ToLower(s)[i] == s[i];
    }
  }

  /** Lower-casing twice is lower-casing once. */
  lemma ToLowerIdempotent(s: string)
    ensures ToLower(ToLower(s)) == ToLower(s)
  {
    ToLowerOfLowerCase(s);
    ToLowerOfLowerCase(ToLower(s));
  }

  /** Every exit code is already lower-case. */
  lemma ExitCodesLowerCase()
    ensures forall k :: k in ExitCodes ==> IsLowerCase(k)
  {
  }

  /** No exit code contains a space. */
  lemma ExitCodesHaveNoSpace()
    ensures forall k :: k in ExitCodes ==> ' ' !in k
  {
  }

  /** The lowered response is an exit code exactly when the response equals
      one of the exit codes up to the case of its letters. */
  lemma LoweredInExitCodes(s: string)
    ensures ToLower(s) in ExitCodes <==> exists k :: k in ExitCodes && EqualIgnoringCase(s, k)
  {
    ExitCodesLowerCase();
    if ToLower(s) in ExitCodes {
      var k := ToLower(s);
      assert EqualIgnoringCase(s, k) by {
        forall i | 0 <= i < |s| ensures LowerChar(s[i]) == LowerChar(k[i]) {
          assert !('A' <= k[i] <= 'Z');
        }
      }
    }
    if k :| k in ExitCodes && EqualIgnoringCase(s, k) {
      ToLowerOfLowerCase(k);
      assert ToLower(s) == k by {
        forall i | 0 <= i < |s| ensures ToLower(s)[i] == k[i] {
          assert ToLower(k)[i] == k[i];
        }
      }
    }
  }

  /** True when the response, lower-cased, is one of the exit codes: that is,
      when it equals one of them up to the case of its letters. */
  predicate IsExitCode(s: string)
    ensures IsExitCode(s) <==> exists k :: k in ExitCodes && EqualIgnoringCase(s, k)
  {
    LoweredInExitCodes(s);
    ToLower(s) in ExitCodes
  }

  /** Responses that agree up to case are either both exit codes or neither. */
  lemma IsExitCodeCaseInsensitive(s: string, t: string)
    requires EqualIgnoringCase(s, t)
    ensures IsExitCode(s) <==> IsExitCode(t)
  {
    assert ToLower(s) == ToLower(t);
  }

  /** Upper-case and mixed-case spellings are accepted. */
  lemma UpperCaseAccepted()
    ensures IsExitCode("QUIT") && IsExitCode("Exit") && IsExitCode("Q")
  {
    assert ToLower("QUIT") == "quit";
    assert ToLower("Exit") == "exit";
    assert ToLower("Q") == "q";
  }

  /** No exit code holds a space, and lower-casing keeps a space, so a response
      with a space anywhere, such as " exit" or "exit ", is not an exit code. */
  lemma SpaceRejected(s: string, i: nat)
    requires i < |s| && s[i] == ' '
    ensures !IsExitCode(s)
  {
    assert ToLower(s)[i] == ' ';
    ExitCodesHaveNoSpace();
  }

  /** The empty response does not end the session. */
  lemma EmptyRejected()
    ensures !IsExitCode("")
  {
  }
}
